/** The task list page backed by the tasks endpoint: loading and normalising
    the records, the handlers that write through to the server, and the
    filtered list on screen (no sort on this page). */
module SiswaTasksPage {
  import opened Types
  import opened Seqs
  import opened Records
  import opened SortHelpers
  import opened ListUpdates
  import TasksPage

  /** The loader's `map`: the id resolved, a missing priority read as Sedang,
      a missing completion flag as open, a missing creation date as empty. */
  function NormalizeTask(rec: TaskRecord): (r: Task)
    ensures r.id == ResolveId(rec.id, rec.mongoId)
    ensures r.title == rec.title && r.subject == rec.subject
    ensures rec.deadline.Some? ==> r.deadline == rec.deadline.value
    ensures rec.priority.None? ==> r.priority == Sedang
    ensures rec.priority.Some? ==> r.priority == rec.priority.value
    ensures r.isCompleted <==> rec.isCompleted == Some(true)
    ensures rec.createdAt.None? ==> r.createdAt == ""
    ensures rec.createdAt.Some? ==> r.createdAt == rec.createdAt.value
  {
    Task(ResolveId(rec.id, rec.mongoId), rec.title, rec.subject, rec.deadline.GetOr(""),
      rec.priority.GetOr(Sedang), rec.isCompleted.GetOr(false), rec.createdAt.GetOr(""))
  }

  /** A task's own record, with whatever database id, normalises back to it. */
  lemma NormalizeTaskRoundTrip(t: Task, mongoId: Nullable<string>)
    ensures NormalizeTask(TaskRecordOf(t).(mongoId := mongoId)) == t
  {
  }

  /** `(json.data || []).map(normalise)`. */
  function NormalizeTasks(data: Option<seq<TaskRecord>>): (r: seq<Task>)
    ensures data.None? ==> r == []
    ensures data.Some? ==> |r| == |data.value|
    ensures data.Some? ==> forall i :: 0 <= i < |r| ==> r[i] == NormalizeTask(data.value[i])
  {
    var records := Records.Records(data);
    seq(|records|, i requires 0 <= i < |records| => NormalizeTask(records[i]))
  }

  /** The page's state. A request that throws is `requestOk == false`; the
      handler then only logs, so the state stays as it was. */
  class Page {
    var tasks: seq<Task>
    var isLoading: bool
    var searchQuery: string
    var filterStatus: StatusFilter
    var filterSubject: string
    var filterPriority: string
    var quickFilter: string
    var isModalOpen: bool
    var editingTask: Option<Task>

    function CurrentFilters(): TasksPage.Filters
      reads this
    {
      TasksPage.Filters(searchQuery, filterStatus, filterSubject, filterPriority)
    }

    /** Everything but the task list, the loading flag and the form dialog. */
    function Settings(): (TasksPage.Filters, string)
      reads this
    {
      (CurrentFilters(), quickFilter)
    }

    /** A task is being edited only while the form dialog is open. */
    predicate Valid()
      reads this
    {
      editingTask.Some? ==> isModalOpen
    }

    /** The first render: no tasks yet, loading, every filter at `all`. */
    constructor()
      ensures Valid()
      ensures tasks == [] && isLoading
      ensures Settings() == (TasksPage.NoFilters, "all")
      ensures !isModalOpen && editingTask == None
    {
      tasks, isLoading := [], true;
      searchQuery, filterStatus, filterSubject, filterPriority := "", AllStatuses, "all", "all";
      quickFilter := "all";
      isModalOpen, editingTask := false, None;
    }

    /** `fetchTasks`: a response replaces the list with its normalised
        records; a failed request keeps the list. Loading ends either way. */
    method Load(response: Response<TaskRecord>)
      requires Valid()
      modifies this
      ensures Valid()
      ensures response.Received? ==> tasks == NormalizeTasks(response.data)
      ensures response.Failed? ==> tasks == old(tasks)
      ensures !isLoading
      ensures Settings() == old(Settings())
      ensures isModalOpen == old(isModalOpen) && editingTask == old(editingTask)
    {
      match response {
        case Received(data) => tasks := NormalizeTasks(data);
        case Failed =>
      }
      isLoading := false;
    }

    /** `handleToggleComplete(id)`: nothing happens when no task has the id;
        otherwise, once the update request returns, that task flips. */
    method ToggleComplete(id: string, requestOk: bool)
      requires Valid()
      modifies this
      ensures Valid()
      ensures (forall t :: t in old(tasks) ==> t.id != id) ==> tasks == old(tasks)
      ensures requestOk ==> tasks == ListUpdates.ToggleComplete(old(tasks), id)
      ensures !requestOk ==> tasks == old(tasks)
      ensures Settings() == old(Settings()) && isLoading == old(isLoading)
      ensures isModalOpen == old(isModalOpen) && editingTask == old(editingTask)
    {
      if exists t :: t in tasks && t.id == id {
        if requestOk {
          tasks := ListUpdates.ToggleComplete(tasks, id);
        }
      }
      else if requestOk {
        ToggleAbsent(tasks, id);
      }
    }

    /** `handleDelete(id)`: once confirmed and the delete request returns,
        the tasks with the id are dropped. */
    method Delete(id: string, confirmed: bool, requestOk: bool)
      requires Valid()
      modifies this
      ensures Valid()
      ensures confirmed && requestOk ==> tasks == RemoveById(old(tasks), TaskId, id)
      ensures !(confirmed && requestOk) ==> tasks == old(tasks)
      ensures Settings() == old(Settings()) && isLoading == old(isLoading)
      ensures isModalOpen == old(isModalOpen) && editingTask == old(editingTask)
    {
      if confirmed && requestOk {
        tasks := RemoveById(tasks, TaskId, id);
      }
    }

    /** `handleAddNew`: opens an empty form. */
    method AddNew()
      requires Valid()
      modifies this
      ensures Valid()
      ensures isModalOpen && editingTask == None
      ensures tasks == old(tasks) && Settings() == old(Settings()) && isLoading == old(isLoading)
    {
      editingTask := None;
      isModalOpen := true;
    }

    /** `handleEdit(task)`: opens the form on a task. */
    method Edit(task: Task)
      requires Valid()
      modifies this
      ensures Valid()
      ensures isModalOpen && editingTask == Some(task)
      ensures tasks == old(tasks) && Settings() == old(Settings()) && isLoading == old(isLoading)
    {
      editingTask := Some(task);
      isModalOpen := true;
    }

    /** `handleFormSubmit(taskData)`: an edit replaces the tasks with its id;
        a new task is appended as the server returned it (`stored`). Only a
        request that returns closes the dialog. */
    method FormSubmit(taskData: Task, requestOk: bool, stored: Task)
      requires Valid()
      modifies this
      ensures Valid()
      ensures requestOk && old(editingTask).Some? ==> tasks == ReplaceById(old(tasks), TaskId, taskData)
      ensures requestOk && old(editingTask).None? ==> tasks == old(tasks) + [stored]
      ensures requestOk ==> !isModalOpen && editingTask == None
      ensures !requestOk ==> tasks == old(tasks) && isModalOpen == old(isModalOpen) && editingTask == old(editingTask)
      ensures Settings() == old(Settings()) && isLoading == old(isLoading)
    {
      if requestOk {
        if editingTask.Some? {
          tasks := ReplaceById(tasks, TaskId, taskData);
        } else {
          tasks := tasks + [stored];
        }
        isModalOpen := false;
        editingTask := None;
      }
    }

    /** `handleFormCancel`. */
    method FormCancel()
      requires Valid()
      modifies this
      ensures Valid()
      ensures !isModalOpen && editingTask == None
      ensures tasks == old(tasks) && Settings() == old(Settings()) && isLoading == old(isLoading)
    {
      isModalOpen := false;
      editingTask := None;
    }

    /** The reset button: the search, the three filters and the quick filter
        back to their initial values. */
    method ResetFilters()
      requires Valid()
      modifies this
      ensures Valid()
      ensures Settings() == (TasksPage.NoFilters, "all")
      ensures tasks == old(tasks) && isLoading == old(isLoading)
      ensures isModalOpen == old(isModalOpen) && editingTask == old(editingTask)
    {
      searchQuery := "";
      filterStatus := AllStatuses;
      filterSubject := "all";
      filterPriority := "all";
      quickFilter := "all";
    }

    /** `processedTasks`: the page's own quick filter, then the attribute
        filters, in the stored order; the counter shows its length against
        the whole list's. */
    function Displayed(clock: Clock, time: string -> int): (r: seq<Task>)
      reads this
      ensures IsSubsequence(r, tasks)
      ensures |r| <= |tasks|
      ensures forall t :: t in r <==>
                t in tasks && InWindow(QuickFilterFromName(quickFilter), clock, time, t) &&
                TasksPage.Keeps(CurrentFilters(), t)
      ensures forall t :: multiset(r)[t] ==
                if InWindow(QuickFilterFromName(quickFilter), clock, time, t) && TasksPage.Keeps(CurrentFilters(), t)
                then multiset(tasks)[t] else 0
      ensures Settings() == (TasksPage.NoFilters, "all") ==> r == tasks
    {
      var windowed := ApplyQuickFilter(tasks, quickFilter, clock, time);
      var r := TasksPage.ApplyFilters(windowed, CurrentFilters());
      SubsequenceTransitive(r, windowed, tasks);
      SubsequenceLength(r, tasks);
      if Settings() == (TasksPage.NoFilters, "all") then
        QuickFilterRoundTrip(AllTasks);
        r
      else
        r
    }

    /** The subject dropdown's options. */
    function Subjects(): seq<string>
      reads this
    {
      TasksPage.SubjectOptions(tasks)
    }
  }
}
