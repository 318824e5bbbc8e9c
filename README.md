# Web Manajemen Siswa in Dafny

Web Manajemen Siswa is a student planner. It keeps a list of *tugas*, the
assignments a student has to hand in. Each task has a subject, a deadline, a
priority of Rendah, Sedang or Tinggi, and a completion flag. It also keeps a
weekly timetable of lessons (*jadwal*), each with a day, a subject, start and
end times and an optional room.

This project models the client-side logic that shapes those lists:

- the task sort and the time-window quick filters;
- the dashboard statistics;
- the two copies of the task page, with their filters and list handlers;
- the record normalisers applied to what the server returns;
- the two schedule pages, with their day buckets;
- the task and lesson forms;
- the lesson card's colour hash.

Each source file becomes a module:

| module | models |
|---|---|
| `Types` | the enumerations and records of `lib/types.ts` |
| `SortHelpers` | `Web_Manajemen_Siswa-main/lib/sortHelpers.ts` |
| `TaskHelpers` | `Web_Manajemen_Siswa-main/lib/taskHelpers.ts` |
| `TasksPage` | `app/tasks/page.tsx`, the task page backed by local storage |
| `SiswaTasksPage` | `Web_Manajemen_Siswa-main/app/tasks/page.tsx`, the task page backed by the API |
| `Dashboard` | `Web_Manajemen_Siswa-main/app/page.tsx` |
| `SiswaSchedulePage` | `Web_Manajemen_Siswa-main/app/schedule/page.tsx` |
| `SchedulePage` | `app/schedule/page.tsx` |
| `TaskForm`, `ScheduleForm`, `ScheduleCard` | the components of the same names |

Four further modules hold what those modules share:

- `Seqs`: `filter`, and a stable insertion sort. The sort is a method on an array, proved equal to a functional `StableSort`.
- `JsString`: the JavaScript string operations the pages use, namely `<`, `split('T')[0]`, `toLowerCase`, `includes` and `trim`.
- `Records`: the loosely typed records the server returns.
- `ListUpdates`: toggle, delete-by-id and replace-by-id.

React state becomes classes. Each page is a `class` whose fields are its
`useState` variables. Each handler is a method that reassigns them and
states the whole new state.

The outside world becomes parameters:

- **Clock.** The pages read the clock as a `Clock` value: today's ISO date, the end of the week's date, the current timestamp, the weekday and the hour.
- **Date parsing.** Timestamp parsing is a function `time: string -> int`.
- **ISO conversion.** `new Date(x).toISOString()` is a function `toIso: string -> Option<string>`, whose `None` means the call throws.
- **Collation.** `localeCompare` on titles and on start times is a relation `titleLe` or `timeLe`. Where sortedness is claimed, that relation is required to be a total preorder.
- **Network results.** A fetch becomes a `Response` or `FetchOutcome` value, or a `requestOk` flag. A confirmation dialog becomes a `confirmed` flag.
- **Generated values.** A generated id is a `freshId` argument. A record the server echoes back is a `stored` argument.

## Model

| member | source | states |
|---|---|---|
| Types.PriorityName | lib/types.ts:12 | a priority is exactly one of "Rendah", "Sedang", "Tinggi" |
| Types.DayNameRoundTrip | lib/types.ts:28-35 | every day's name reads back as that day, so the seven names are distinct |
| Types.AllDaysComplete | lib/types.ts:28-35 | the day list has seven entries, holds every day and repeats none |
| Types.AllSubjectsComplete | lib/types.ts:38-54 | sixteen subjects, each listed once, the last being Lainnya |
| Types.SortOptionRoundTrip | lib/types.ts:74-82 | each of the eight sort keys is recognised from its own name |
| Types.QuickFilterRoundTrip | lib/types.ts:85 | each of the four quick-filter keys is recognised from its own name |
| Seqs.InsertionSort | Web_Manajemen_Siswa-main/lib/sortHelpers.ts:15-66 | sorting the copied array in place yields exactly the stable sort of its old contents |
| Seqs.StableSortSorted | Web_Manajemen_Siswa-main/lib/sortHelpers.ts:20-66 | under a total preorder the stable sort is ordered |
| Seqs.StableSortStable | Web_Manajemen_Siswa-main/lib/sortHelpers.ts:20-66 | elements the comparator cannot tell apart keep their input order |
| Seqs.SortIdempotent | Web_Manajemen_Siswa-main/lib/sortHelpers.ts:20-66 | sorting a sorted list again changes nothing |
| SortHelpers.SortTasks | Web_Manajemen_Siswa-main/lib/sortHelpers.ts:14-71 | a known key gives the stable sort of the copy by that key's comparator; an unknown key gives the input unchanged; the result is always a permutation of the input |
| SortHelpers.TaskOrderIsTotalPreorder | Web_Manajemen_Siswa-main/lib/sortHelpers.ts:18-66 | every key's "comparator returns at most zero" relation is total and transitive |
| SortHelpers.SortedByKey | Web_Manajemen_Siswa-main/lib/sortHelpers.ts:18-66 | the deadlines ascend or descend; Tinggi comes before Sedang before Rendah, or the reverse; titles ascend or descend in the collation; creation times descend or ascend, each for its key |
| SortHelpers.SortTasksStable | Web_Manajemen_Siswa-main/lib/sortHelpers.ts:15-66 | tasks with equal keys keep their relative order |
| SortHelpers.ApplyQuickFilter | Web_Manajemen_Siswa-main/lib/sortHelpers.ts:79-113 | the result is an order-preserving subsequence holding exactly the tasks in the window, every copy of each; `all` or an unknown key returns the input; the other windows never keep a completed task |
| SortHelpers.TodayWithinWeek | Web_Manajemen_Siswa-main/lib/sortHelpers.ts:81-101 | when the end of the week is not before today, the today list is a subsequence of the week list |
| TaskHelpers.CompletionRate | Web_Manajemen_Siswa-main/lib/taskHelpers.ts:26-28 | the rate is 0 for no tasks and lies in 0..100; otherwise it is the percentage rounded half up: `(2r-1)t <= 200c < (2r+1)t` |
| TaskHelpers.AllCompletedIsHundred | Web_Manajemen_Siswa-main/lib/taskHelpers.ts:26-28 | all tasks completed shows 100 |
| TaskHelpers.HundredIffNearlyAll | Web_Manajemen_Siswa-main/lib/taskHelpers.ts:26-28 | the rate is 100 exactly when at least 99.5% of the tasks are completed |
| TaskHelpers.HundredWithOneOpen | Web_Manajemen_Siswa-main/lib/taskHelpers.ts:26-28 | 199 completed of 200 already shows 100 |
| TaskHelpers.RateMonotone | Web_Manajemen_Siswa-main/lib/taskHelpers.ts:26-28 | completing more tasks never lowers the rate |
| TaskHelpers.CalculateTaskStats | Web_Manajemen_Siswa-main/lib/taskHelpers.ts:13-37 | total is the length; completed and pending count the done and the open tasks and add up to the total; todayTasks counts the deadlines dated today and is at most the total; the rate is CompletionRate; an empty list gives all zeros |
| TaskHelpers.GetTodayTasks | Web_Manajemen_Siswa-main/lib/taskHelpers.ts:44-54 | keeps exactly the open tasks dated today, each as often as in the input, ordered by non-decreasing parsed deadline |
| TaskHelpers.WeekdayName | Web_Manajemen_Siswa-main/lib/taskHelpers.ts:62-63 | weekday 0 is Minggu and weekday n from 1 to 6 is the n-th day from Senin |
| TaskHelpers.ByStartTimeIsTotalPreorder | Web_Manajemen_Siswa-main/lib/taskHelpers.ts:66-69 | comparing start times through a total preorder orders lessons by a total preorder |
| TaskHelpers.GetTodaySchedules | Web_Manajemen_Siswa-main/lib/taskHelpers.ts:61-71 | keeps exactly the lessons whose day is today's name, each as often as in the input; under a total-preorder collation they come in non-decreasing start time |
| TaskHelpers.GetTodaySchedulesSorted | Web_Manajemen_Siswa-main/lib/taskHelpers.ts:65-70 | today's lessons come in non-decreasing start time |
| Records.ResolveId | Web_Manajemen_Siswa-main/app/page.tsx:42 | the id is `id`, else `_id`, else "" whether `_id` is missing or `null` |
| Records.NormalizeSchedule | Web_Manajemen_Siswa-main/app/page.tsx:52-59 | the id is resolved; day, subject, times and room pass through unchanged |
| Records.NormalizeScheduleRoundTrip | Web_Manajemen_Siswa-main/app/schedule/page.tsx:43-50 | a lesson's own record normalises back to it, whatever `_id` comes with it |
| Records.NormalizeSchedules | Web_Manajemen_Siswa-main/app/schedule/page.tsx:43-50 | one lesson per record, in order |
| ListUpdates.ToggleComplete | app/tasks/page.tsx:43-46 | the length is kept; tasks with other ids are unchanged; tasks with the id differ only in a flipped completion flag |
| ListUpdates.ToggleTwice | app/tasks/page.tsx:44-46 | toggling the same id twice restores the list |
| ListUpdates.ToggleAbsent | Web_Manajemen_Siswa-main/app/tasks/page.tsx:62-63 | toggling an id no task has changes nothing |
| ListUpdates.RemoveById | app/tasks/page.tsx:53 | the result is an order-preserving subsequence holding exactly the records whose id differs |
| ListUpdates.RemoveCount | app/tasks/page.tsx:53 | the kept records and the records with the id add up to the whole list |
| ListUpdates.RemoveIdempotent | Web_Manajemen_Siswa-main/app/schedule/page.tsx:76 | deleting the same id twice is deleting it once |
| ListUpdates.ReplaceById | app/tasks/page.tsx:71-73 | the length and every id are kept; records with the edited id become the edit and all others are unchanged |
| ListUpdates.ReplaceIdempotent | Web_Manajemen_Siswa-main/app/schedule/page.tsx:91 | saving the same edit twice is saving it once; with no record of that id, nothing changes |
| TasksPage.ApplyFilters | app/tasks/page.tsx:96-113 | the result is an order-preserving subsequence holding exactly the tasks every filter accepts, every copy of each; `completed` and `pending` keep only done or only open tasks; a subject or priority other than `all` keeps exact matches only; no filters keeps everything |
| TasksPage.SearchMeansOccurs | app/tasks/page.tsx:108-110 | a non-empty search keeps a task exactly when the lower-cased query occurs in the lower-cased title |
| TasksPage.SubjectOptions | app/tasks/page.tsx:119 | `all` comes first, then every subject of the list exactly once, in order of first appearance |
| TasksPage.Page.constructor | app/tasks/page.tsx:17-39 | the loaded tasks, every filter at `all`, sort `deadline-asc`, no dialog |
| TasksPage.Page.ToggleComplete | app/tasks/page.tsx:43-49 | the list becomes its toggle; everything else is unchanged |
| TasksPage.Page.Delete | app/tasks/page.tsx:51-57 | a confirmed delete removes the id; an unconfirmed one changes nothing |
| TasksPage.Page.AddNew | app/tasks/page.tsx:59-62 | opens an empty dialog |
| TasksPage.Page.Edit | app/tasks/page.tsx:64-67 | opens the dialog on the task |
| TasksPage.Page.FormSubmit | app/tasks/page.tsx:69-83 | an edit replaces by id, so the length is kept; a creation appends the task; the dialog closes |
| TasksPage.Page.FormCancel | app/tasks/page.tsx:85-88 | closes the dialog and leaves the tasks alone |
| TasksPage.Page.ResetFilters | app/tasks/page.tsx:248-255 | search, filters and quick filter go back to `all` and the sort to `deadline-asc`; nothing else changes |
| TasksPage.Page.Processed | app/tasks/page.tsx:93-113 | the list before sorting is a subsequence of the tasks holding exactly those in the quick-filter window and accepted by every filter, every copy of each |
| TasksPage.Page.Visible | app/tasks/page.tsx:116 | the shown list is a permutation of the processed list: sorted stably by a known key, or left as it is |
| TasksPage.DefaultsShowEverything | app/tasks/page.tsx:248-255 | with the defaults, every task is shown |
| SiswaTasksPage.NormalizeTask | Web_Manajemen_Siswa-main/app/tasks/page.tsx:42-50 | the id is resolved; a missing priority reads as Sedang, a missing completion flag as open and a missing creation date as "" |
| SiswaTasksPage.NormalizeTaskRoundTrip | Web_Manajemen_Siswa-main/app/tasks/page.tsx:42-50 | a task's own record normalises back to it |
| SiswaTasksPage.NormalizeTasks | Web_Manajemen_Siswa-main/app/tasks/page.tsx:42 | a missing `data` gives no tasks; otherwise one task per record, in order |
| SiswaTasksPage.Page.constructor | Web_Manajemen_Siswa-main/app/tasks/page.tsx:16-30 | no tasks, loading, every filter at `all`, no dialog |
| SiswaTasksPage.Page.Load | Web_Manajemen_Siswa-main/app/tasks/page.tsx:37-58 | a response replaces the list with its normalised records; a failure keeps it; loading ends |
| SiswaTasksPage.Page.ToggleComplete | Web_Manajemen_Siswa-main/app/tasks/page.tsx:61-79 | an unknown id changes nothing; a request that returns toggles the id; a failed one changes nothing |
| SiswaTasksPage.Page.Delete | Web_Manajemen_Siswa-main/app/tasks/page.tsx:81-90 | only a confirmed delete whose request returns removes the id |
| SiswaTasksPage.Page.AddNew | Web_Manajemen_Siswa-main/app/tasks/page.tsx:92-95 | opens an empty dialog |
| SiswaTasksPage.Page.Edit | Web_Manajemen_Siswa-main/app/tasks/page.tsx:97-100 | opens the dialog on the task |
| SiswaTasksPage.Page.FormSubmit | Web_Manajemen_Siswa-main/app/tasks/page.tsx:102-128 | when the request returns, an edit replaces by id, a creation appends the stored record, and the dialog closes; when it fails, nothing changes |
| SiswaTasksPage.Page.FormCancel | Web_Manajemen_Siswa-main/app/tasks/page.tsx:130-133 | closes the dialog |
| SiswaTasksPage.Page.ResetFilters | Web_Manajemen_Siswa-main/app/tasks/page.tsx:293-299 | search, filters and quick filter go back to `all`; this page has no sort to reset |
| SiswaTasksPage.Page.Displayed | Web_Manajemen_Siswa-main/app/tasks/page.tsx:136-175 | with no sort step, the list is an order-preserving subsequence of the tasks, no longer than the tasks, holding exactly those in the window and accepted by every filter, every copy of each; with the defaults it is the whole list |
| Dashboard.NormalizeTask | Web_Manajemen_Siswa-main/app/page.tsx:41-49 | a non-empty `dueDate` wins and is converted; otherwise the deadline is `deadline` or ""; the priority defaults to Sedang; completion falls back to `status == "completed"`; a non-empty creation date is converted, otherwise it is ""; the normaliser throws exactly when a conversion throws |
| Dashboard.NormalizeTaskRoundTrip | Web_Manajemen_Siswa-main/app/page.tsx:41-49 | a stored task whose creation date is already ISO normalises back to itself |
| Dashboard.NormalizeTasks | Web_Manajemen_Siswa-main/app/page.tsx:41-49 | every record is normalised in order, and the whole load throws exactly when one record does |
| Dashboard.Page.constructor | Web_Manajemen_Siswa-main/app/page.tsx:16-18 | no tasks, no lessons, loading |
| Dashboard.Page.Load | Web_Manajemen_Siswa-main/app/page.tsx:25-70 | when both bodies arrive and normalise, both lists are replaced, a missing `data` reading as empty; on any failure both lists are emptied; loading ends |
| Dashboard.Page.Stats | Web_Manajemen_Siswa-main/app/page.tsx:78 | total is the number of loaded tasks; completed and pending count the done and the open ones and add up to the total; todayTasks counts those dated today; the rate is CompletionRate of completed and total |
| Dashboard.Page.TodayTasks | Web_Manajemen_Siswa-main/app/page.tsx:79 | exactly the open loaded tasks dated today, every copy of each, in non-decreasing parsed deadline |
| Dashboard.Page.TodaySchedules | Web_Manajemen_Siswa-main/app/page.tsx:80 | exactly the loaded lessons of today's day name, every copy of each; under a total-preorder collation in non-decreasing start time |
| Dashboard.GetGreeting | Web_Manajemen_Siswa-main/app/page.tsx:86-91 | Pagi exactly before 12, Siang exactly from 12 to before 17, Malam exactly from 17 on |
| Dashboard.GreetingMonotone | Web_Manajemen_Siswa-main/app/page.tsx:86-91 | through the day the greeting never goes back |
| SiswaSchedulePage.DayForWeekday | Web_Manajemen_Siswa-main/app/schedule/page.tsx:27-34 | the index is always within the seven days, and it is Minggu exactly for weekday 0 |
| SiswaSchedulePage.DayForWeekdayAgrees | Web_Manajemen_Siswa-main/app/schedule/page.tsx:34 | the schedule page and the dashboard agree on today's day name |
| SiswaSchedulePage.Page.constructor | Web_Manajemen_Siswa-main/app/schedule/page.tsx:16-25 | no lessons, loading, week view on Senin, no dialog |
| SiswaSchedulePage.Page.SelectToday | Web_Manajemen_Siswa-main/app/schedule/page.tsx:33-35 | selects today's day |
| SiswaSchedulePage.Page.Load | Web_Manajemen_Siswa-main/app/schedule/page.tsx:38-58 | a response replaces the list with its normalised records; a failure keeps it; loading ends |
| SiswaSchedulePage.Page.Show | Web_Manajemen_Siswa-main/app/schedule/page.tsx:20-21 | sets the view mode and the selected day and nothing else |
| SiswaSchedulePage.Page.AddNew | Web_Manajemen_Siswa-main/app/schedule/page.tsx:61-64 | opens an empty dialog |
| SiswaSchedulePage.Page.Edit | Web_Manajemen_Siswa-main/app/schedule/page.tsx:66-69 | opens the dialog on the lesson |
| SiswaSchedulePage.Page.Delete | Web_Manajemen_Siswa-main/app/schedule/page.tsx:71-80 | only a confirmed delete whose request returns removes the id |
| SiswaSchedulePage.Page.FormSubmit | Web_Manajemen_Siswa-main/app/schedule/page.tsx:82-108 | when the request returns, an edit replaces by id, a creation appends the stored record, and the dialog closes; when it fails, nothing changes |
| SiswaSchedulePage.Page.FormCancel | Web_Manajemen_Siswa-main/app/schedule/page.tsx:110-113 | closes the dialog |
| SiswaSchedulePage.Page.SortedSchedules | Web_Manajemen_Siswa-main/app/schedule/page.tsx:116-118 | the sorted copy is a permutation of the lessons; under a total-preorder collation it comes in non-decreasing start time |
| SiswaSchedulePage.Page.DaySchedules | Web_Manajemen_Siswa-main/app/schedule/page.tsx:121 | holds exactly the lessons of the selected day, every copy of each, as a subsequence of the sorted copy; under a total-preorder collation in non-decreasing start time |
| SiswaSchedulePage.PushByDay | Web_Manajemen_Siswa-main/app/schedule/page.tsx:124-136 | the push throws exactly when a lesson's day is not one of the seven; otherwise every day has a bucket holding exactly that day's lessons, in order |
| SiswaSchedulePage.EmptyBuckets | Web_Manajemen_Siswa-main/app/schedule/page.tsx:124-132 | all seven buckets start empty |
| SiswaSchedulePage.Page.GroupByDay | Web_Manajemen_Siswa-main/app/schedule/page.tsx:116-136 | the grouping throws exactly when some lesson has an invalid day; otherwise each bucket is its day's part of the sorted list, and the selected day's bucket is the day view |
| SiswaSchedulePage.OnOneDay | Web_Manajemen_Siswa-main/app/schedule/page.tsx:135 | a lesson belongs to at most one day's bucket |
| SiswaSchedulePage.Page.WeekViewShowsAll | Web_Manajemen_Siswa-main/app/schedule/page.tsx:134-136 | when every day is valid, the seven bucket sizes add up to the number of lessons |
| SiswaSchedulePage.Page.BucketSorted | Web_Manajemen_Siswa-main/app/schedule/page.tsx:116-136 | each bucket, and so the day view, comes in non-decreasing start time |
| SchedulePage.RootId | app/schedule/page.tsx:22 | when `id` or `_id` is present, the id is resolved as on the other pages; with neither, it is "undefined" for a missing `_id` and "null" for a `null` one |
| SchedulePage.NormalizeRecord | app/schedule/page.tsx:21-29 | this page's normaliser is the shared one except for the id fallback, and equals it whenever an id is present |
| SchedulePage.NormalizeRecords | app/schedule/page.tsx:21 | one lesson per record, in order |
| SchedulePage.ErrorMessage | app/schedule/page.tsx:18-32 | a status that is not ok reads "API error: " plus the status; a thrown message is shown as is, and an empty one becomes "Gagal mengambil jadwal" |
| SchedulePage.DaysOrderIsWeek | app/schedule/page.tsx:64 | the section order is the week, Senin to Minggu |
| SchedulePage.BucketKey | app/schedule/page.tsx:68 | a lesson's key is its day, or "Lainnya" without one |
| SchedulePage.Page.constructor | app/schedule/page.tsx:9-11 | no lessons, loading, no error |
| SchedulePage.Page.Load | app/schedule/page.tsx:13-36 | fetched records replace the list and clear the error; a failure keeps the list and sets the message; loading ends |
| SchedulePage.Page.Delete | app/schedule/page.tsx:42-55 | a confirmed delete the server accepts reloads the list; otherwise nothing changes |
| SchedulePage.Page.Group | app/schedule/page.tsx:64-71 | the keys are the seven day names plus every lesson's key; each bucket holds exactly the lessons of its key, in input order |
| SchedulePage.PushPreserves | app/schedule/page.tsx:69-70 | opening a missing bucket and pushing onto it keeps every bucket equal to its key's lessons |
| SchedulePage.SectionsMembers | app/schedule/page.tsx:83-96 | a lesson is rendered exactly when its key is one of the section names |
| SchedulePage.UnlistedDaysHidden | app/schedule/page.tsx:83-96 | lessons with no day, or a day outside the seven, are grouped but never rendered |
| SchedulePage.Page.Rendered | app/schedule/page.tsx:83-96 | the rendered lessons are exactly those whose day is one of the seven names |
| TaskForm.LoadTask | components/TaskForm.tsx:46-55 | editing loads the title, subject and priority, and as the deadline the first 16 characters of the ISO form (all of it when shorter); it throws exactly when the conversion does |
| TaskForm.HandleSubmit | components/TaskForm.tsx:58-87 | the checks run in order (blank title, then no subject, then no deadline), the first failing one deciding; a deadline whose conversion throws makes the submit throw; a submitted task has the trimmed, non-empty title, the subject, the converted deadline and the priority; it keeps the edited task's id and creation date when non-empty, otherwise takes the fresh id and today's date; it is completed only if the edited task was |
| TaskForm.SubmittedTitleTrimmed | components/TaskForm.tsx:78 | a submitted title is already trimmed |
| TaskForm.EditUnchangedKeepsTask | components/TaskForm.tsx:46-84 | opening a task with a trimmed title, a subject, an id and a creation date, and saving it unchanged, submits the same task, provided the 16-character ISO text of the deadline reads back as the deadline; that holds only where local time is UTC |
| TaskForm.UnchangedEditShiftsDeadline | components/TaskForm.tsx:51-80 | in a UTC+7 zone, opening a task due 10:00 UTC and saving it unchanged submits it due 03:00 UTC, seven hours earlier |
| TaskForm.SubjectChoicesAreSubjects | components/TaskForm.tsx:26-43 | the form offers the subject type's sixteen names, in order |
| ScheduleForm.LoadSchedule | components/ScheduleForm.tsx:49-57 | editing loads every field, a missing room as "" |
| ScheduleForm.RoomValue | components/ScheduleForm.tsx:84 | a blank room becomes absent; any other room is trimmed |
| ScheduleForm.HandleSubmit | components/ScheduleForm.tsx:60-88 | no subject, then a missing time, then an end not after the start reject, in that order; a submitted lesson has its start strictly before its end, the trimmed room, and the edited lesson's id when non-empty, otherwise the fresh one |
| ScheduleForm.SubmittedRoomTrimmed | components/ScheduleForm.tsx:84 | a submitted room is absent or trimmed and non-empty |
| ScheduleForm.EditUnchangedKeepsSchedule | components/ScheduleForm.tsx:49-85 | opening a lesson with an id, a subject, a start before its end and a trimmed room, and saving it unchanged, submits the same lesson |
| ScheduleCard.CharCodeSumAppend | components/ScheduleCard.tsx:28 | the code sum of a concatenation is the sum of the parts |
| ScheduleCard.CharCodeSumPermutation | components/ScheduleCard.tsx:28 | the code sum does not depend on the order of the characters |
| ScheduleCard.ColorIndex | components/ScheduleCard.tsx:29 | the index is a valid palette index, congruent to the code sum modulo six |
| ScheduleCard.ColorForSubject | components/ScheduleCard.tsx:17-30 | the colour is always one of the six palette entries |
| ScheduleCard.AnagramsShareColor | components/ScheduleCard.tsx:27-30 | subject names made of the same characters get the same colour |
| ScheduleCard.EmptySubjectIsBlue | components/ScheduleCard.tsx:28-29 | the empty subject gets the first colour |

The completion rate shows 100 for 199 completed tasks out of 200. So
"100%" does not mean every task is done. `HundredIffNearlyAll` gives the
exact condition: at least 99.5% of the tasks are completed.

## Left out

- **Network and storage.** I/O is left out: `fetch`, the API routes and saving to or loading from local storage.
- **Dialogs.** `confirm` is modelled only as the `confirmed` flag. The `alert`s, including the one that stands in for editing on the root schedule page, are left out.
- **React lifecycle.** The dashboard's `mounted` flag and the effect wiring are left out.
- **The `_id` field.** The root schedule normaliser copies the extra `_id` field onto each lesson. Nothing reads it, so it is not modelled.
- **Dates.** The real date semantics are parameters: `new Date` parsing and `toISOString`, time zones, and how the end of the week is computed. An `Invalid Date` compares as `NaN`; `time` returns an integer for every string.
- **Collation.** `localeCompare` is abstract. Sortedness holds only for relations that are a total preorder.
- **Lower-casing.** `toLowerCase` is modelled on ASCII letters only.
- **Characters.** Dafny characters are Unicode scalar values, while JavaScript strings are UTF-16 code units. For characters outside the Basic Multilingual Plane the two differ in three places. The model's character-code sum (`split('')` and `charCodeAt`) differs from the source's. `Less` and `AtMost` rank such a character above U+E000 to U+FFFF, where JavaScript's `<` and `<=` rank its leading surrogate below them. Lengths, and so `slice(0, 16)`, count such a character once instead of twice.
- **Wrong types in records.** A record field of the wrong JSON type is not modelled; for example, a priority outside the three names can arrive from the server.
- **Object prototype keys.** On the root schedule page, a lesson whose day is the name of an `Object.prototype` member, such as `constructor`, makes the push throw. The model treats every string as a plain key.
- **The appended record.** A created task or lesson is appended to the list exactly as the server returned it, without normalising, so it is an opaque `stored` argument.
- TaskHelpers.CompletionRate: computed in exact integers. Floating-point division can round a few exact halves the other way; for example 29 of 200 gives 14.499999…, which rounds to 14.
- SiswaTasksPage.NormalizeTask: a record without a deadline gets "" here, while the source passes `undefined` through.
- TaskForm.EditUnchangedKeepsTask: assumes that `toIso` reads the 16-character ISO text of the deadline back as the deadline. The form fills its `datetime-local` input with the UTC wall time of the deadline, and `new Date` then reads that zone-less text as local time. So the assumption holds only where local time is UTC. Anywhere else, saving a task unchanged moves its deadline by the zone offset: seven hours earlier in Jakarta, as `UnchangedEditShiftsDeadline` shows.
- TaskForm.LoadTask: if the conversion throws, the edit effect has already set the title and subject. The model returns no fields at all in that case.
- ScheduleForm.HandleSubmit: the day is passed through as loaded. It is one of the seven names only when the form starts empty or edits a lesson whose day is valid.
