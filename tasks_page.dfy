/** The task list page backed by local storage: its handlers, and the
    pipeline from the stored list to the cards on screen (quick filter, then
    the status, subject, priority and search filters, then the sort). */
module TasksPage {
  import opened Types
  import opened Seqs
  import opened JsString
  import opened SortHelpers
  import opened ListUpdates

  // ------------------------------------------------------------- filters

  /** The status, subject, priority and search inputs above the list. */
  datatype Filters = Filters(searchQuery: string, status: StatusFilter, subject: string, priority: string)

  /** Every filter at its initial value: no search, and `all` everywhere. */
  const NoFilters := Filters("", AllStatuses, "all", "all")

  predicate StatusKeeps(status: StatusFilter, t: Task)
  {
    match status
    case AllStatuses => true
    case CompletedOnly => t.isCompleted
    case PendingOnly => !t.isCompleted
  }

  predicate SubjectKeeps(subject: string, t: Task)
  {
    subject == "all" || t.subject == subject
  }

  predicate PriorityKeeps(priority: string, t: Task)
  {
    priority == "all" || PriorityName(t.priority) == priority
  }

  /** An empty query keeps everything; otherwise the lower-cased title must
      include the lower-cased query. */
  predicate SearchKeeps(query: string, t: Task)
  {
    query == "" || Contains(Lower(t.title), Lower(query))
  }

  predicate Keeps(f: Filters, t: Task)
  {
    StatusKeeps(f.status, t) && SubjectKeeps(f.subject, t) &&
    PriorityKeeps(f.priority, t) && SearchKeeps(f.searchQuery, t)
  }

  /** The `processedTasks.filter(...)` step: keeps, in order, exactly the tasks
      every filter accepts. */
  function ApplyFilters(tasks: seq<Task>, f: Filters): (r: seq<Task>)
    ensures IsSubsequence(r, tasks)
    ensures forall t :: t in r <==> t in tasks && Keeps(f, t)
    ensures forall t :: multiset(r)[t] == if Keeps(f, t) then multiset(tasks)[t] else 0
    ensures f.status == CompletedOnly ==> forall t :: t in r ==> t.isCompleted
    ensures f.status == PendingOnly ==> forall t :: t in r ==> !t.isCompleted
    ensures f.subject != "all" ==> forall t :: t in r ==> t.subject == f.subject
    ensures f.priority != "all" ==> forall t :: t in r ==> PriorityName(t.priority) == f.priority
    ensures f == NoFilters ==> r == tasks
  {
    var keep := (t: Task) => Keeps(f, t);
    FilterIsSubsequence(tasks, keep);
    FilterMembers(tasks, keep);
    FilterCounts(tasks, keep);
    if f == NoFilters then
      FilterAll(tasks, keep);
      Filter(tasks, keep)
    else
      Filter(tasks, keep)
  }

  /** The search matches exactly the titles in which the query occurs,
      ignoring ASCII case. */
  lemma SearchMeansOccurs(query: string, t: Task)
    requires query != ""
    ensures SearchKeeps(query, t) <==> exists i :: OccursAt(Lower(t.title), Lower(query), i)
  {
    ContainsAt(Lower(t.title), Lower(query));
    assert SearchKeeps(query, t) == Contains(Lower(t.title), Lower(query));
  }

  /** `tasks.map(t => t.subject)`. */
  function SubjectsOf(tasks: seq<Task>): (r: seq<string>)
    ensures |r| == |tasks|
    ensures forall i :: 0 <= i < |tasks| ==> r[i] == tasks[i].subject
  {
    seq(|tasks|, i requires 0 <= i < |tasks| => tasks[i].subject)
  }

  /** `['all', ...Array.from(new Set(tasks.map(t => t.subject)))]`: `all`, then
      each subject of the list once, in order of first appearance. */
  function SubjectOptions(tasks: seq<Task>): (r: seq<string>)
    ensures |r| >= 1 && r[0] == "all"
    ensures forall s :: s in r[1..] <==> exists t :: t in tasks && t.subject == s
    ensures forall s :: s in r[1..] <==> s in SubjectsOf(tasks)
    ensures forall i, j :: 1 <= i < j < |r| ==> r[i] != r[j]
    ensures forall i, j :: 1 <= i < j < |r| ==> FirstIndex(SubjectsOf(tasks), r[i]) < FirstIndex(SubjectsOf(tasks), r[j])
  {
    var subjects := SubjectsOf(tasks);
    var r := ["all"] + Distinct(subjects);
    assert r[1..] == Distinct(subjects);
    forall s | s in r[1..] ensures exists t :: t in tasks && t.subject == s {
      var i :| 0 <= i < |subjects| && subjects[i] == s;
      assert tasks[i] in tasks;
    }
    forall t | t in tasks ensures t.subject in r[1..] {
      var i :| 0 <= i < |tasks| && tasks[i] == t;
      assert subjects[i] == t.subject;
    }
    r
  }

  // ---------------------------------------------------------------- page

  /** The page's state and its handlers. Confirmation dialogs become a
      `confirmed` argument; saving to local storage is left out. */
  class Page {
    var tasks: seq<Task>
    var searchQuery: string
    var filterStatus: StatusFilter
    var filterSubject: string
    var filterPriority: string
    var sortBy: string
    var quickFilter: string
    var isModalOpen: bool
    var editingTask: Option<Task>

    /** The filter inputs as one value. */
    function CurrentFilters(): Filters
      reads this
    {
      Filters(searchQuery, filterStatus, filterSubject, filterPriority)
    }

    /** Everything but the task list and the form dialog. */
    function Settings(): (Filters, string, string)
      reads this
    {
      (CurrentFilters(), sortBy, quickFilter)
    }

    /** A task is being edited only while the form dialog is open. */
    predicate Valid()
      reads this
    {
      editingTask.Some? ==> isModalOpen
    }

    /** The page after loading `loaded` from storage: every filter at its default,
        sorted by nearest deadline, no dialog. */
    constructor(loaded: seq<Task>)
      ensures Valid()
      ensures tasks == loaded
      ensures Settings() == (NoFilters, "deadline-asc", "all")
      ensures !isModalOpen && editingTask == None
    {
      tasks := loaded;
      searchQuery, filterStatus, filterSubject, filterPriority := "", AllStatuses, "all", "all";
      sortBy, quickFilter := "deadline-asc", "all";
      isModalOpen, editingTask := false, None;
    }

    /** `handleToggleComplete(id)`. */
    method ToggleComplete(id: string)
      requires Valid()
      modifies this
      ensures Valid()
      ensures tasks == ListUpdates.ToggleComplete(old(tasks), id)
      ensures Settings() == old(Settings())
      ensures isModalOpen == old(isModalOpen) && editingTask == old(editingTask)
    {
      tasks := ListUpdates.ToggleComplete(tasks, id);
    }

    /** `handleDelete(id)`: removes the tasks with the id once confirmed. */
    method Delete(id: string, confirmed: bool)
      requires Valid()
      modifies this
      ensures Valid()
      ensures confirmed ==> tasks == RemoveById(old(tasks), TaskId, id)
      ensures !confirmed ==> tasks == old(tasks)
      ensures Settings() == old(Settings())
      ensures isModalOpen == old(isModalOpen) && editingTask == old(editingTask)
    {
      if confirmed {
        tasks := RemoveById(tasks, TaskId, id);
      }
    }

    /** `handleAddNew`: opens an empty form. */
    method AddNew()
      requires Valid()
      modifies this
      ensures Valid()
      ensures isModalOpen && editingTask == None
      ensures tasks == old(tasks) && Settings() == old(Settings())
    {
      editingTask := None;
      isModalOpen := true;
    }

    /** `handleEdit(task)`: opens the form on a task. */
    method Edit(task: Task)
      requires Valid()
      modifies this
      ensures Valid()
      ensures isModalOpen && editingTask == Some(task)
      ensures tasks == old(tasks) && Settings() == old(Settings())
    {
      editingTask := Some(task);
      isModalOpen := true;
    }

    /** `handleFormSubmit(taskData)`: an edit replaces the tasks with its id,
        a new task is appended; the dialog closes. */
    method FormSubmit(taskData: Task)
      requires Valid()
      modifies this
      ensures Valid()
      ensures old(editingTask).Some? ==> tasks == ReplaceById(old(tasks), TaskId, taskData)
      ensures old(editingTask).None? ==> tasks == old(tasks) + [taskData]
      ensures !isModalOpen && editingTask == None
      ensures Settings() == old(Settings())
    {
      if editingTask.Some? {
        tasks := ReplaceById(tasks, TaskId, taskData);
      } else {
        tasks := tasks + [taskData];
      }
      isModalOpen := false;
      editingTask := None;
    }

    /** `handleFormCancel`. */
    method FormCancel()
      requires Valid()
      modifies this
      ensures Valid()
      ensures !isModalOpen && editingTask == None
      ensures tasks == old(tasks) && Settings() == old(Settings())
    {
      isModalOpen := false;
      editingTask := None;
    }

    /** The reset button: every filter, the quick filter and the sort key back
        to their initial values. */
    method ResetFilters()
      requires Valid()
      modifies this
      ensures Valid()
      ensures Settings() == (NoFilters, "deadline-asc", "all")
      ensures tasks == old(tasks)
      ensures isModalOpen == old(isModalOpen) && editingTask == old(editingTask)
    {
      searchQuery := "";
      filterStatus := AllStatuses;
      filterSubject := "all";
      filterPriority := "all";
      quickFilter := "all";
      sortBy := "deadline-asc";
    }

    /** The list before sorting: the quick filter, then the other filters. */
    function Processed(clock: Clock, time: string -> int): (r: seq<Task>)
      reads this
      ensures IsSubsequence(r, tasks)
      ensures forall t :: t in r <==>
                t in tasks && InWindow(QuickFilterFromName(quickFilter), clock, time, t) && Keeps(CurrentFilters(), t)
      ensures forall t :: multiset(r)[t] ==
                if InWindow(QuickFilterFromName(quickFilter), clock, time, t) && Keeps(CurrentFilters(), t)
                then multiset(tasks)[t] else 0
    {
      var windowed := ApplyQuickFilter(tasks, quickFilter, clock, time);
      var r := ApplyFilters(windowed, CurrentFilters());
      SubsequenceTransitive(r, windowed, tasks);
      r
    }

    /** `filteredTasks`: the processed list sorted by the chosen key. */
    method Visible(clock: Clock, time: string -> int, titleLe: (string, string) -> bool)
      returns (shown: seq<Task>)
      ensures multiset(shown) == multiset(Processed(clock, time))
      ensures forall t :: t in shown ==> t in tasks && Keeps(CurrentFilters(), t)
      ensures SortOptionFromName(sortBy).Some? ==>
                shown == StableSort(TaskOrder(SortOptionFromName(sortBy).value, time, titleLe), Processed(clock, time))
      ensures SortOptionFromName(sortBy).None? ==> shown == Processed(clock, time)
    {
      var processed := Processed(clock, time);
      shown := SortTasks(processed, sortBy, time, titleLe);
      assert forall t :: t in shown ==> t in multiset(processed);
    }

    /** The subject dropdown's options. */
    function Subjects(): seq<string>
      reads this
    {
      SubjectOptions(tasks)
    }
  }

  /** Right after loading, or after a reset, the page shows every task. */
  lemma DefaultsShowEverything(tasks: seq<Task>, clock: Clock, time: string -> int)
    ensures ApplyFilters(ApplyQuickFilter(tasks, "all", clock, time), NoFilters) == tasks
  {
    QuickFilterRoundTrip(AllTasks);
  }
}
