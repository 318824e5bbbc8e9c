/** The list updates the page handlers perform on their record lists:
    flip one task's completion, drop the records with an id, and swap in an
    edited record for the one with its id. */
module ListUpdates {
  import opened Types
  import opened Seqs

  function TaskId(t: Task): string
  {
    t.id
  }

  function ScheduleId(s: Schedule): string
  {
    s.id
  }

  /** `tasks.map(t => t.id === id ? { ...t, isCompleted: !t.isCompleted } : t)`. */
  function ToggleComplete(tasks: seq<Task>, id: string): (r: seq<Task>)
    ensures |r| == |tasks|
    ensures forall i :: 0 <= i < |tasks| && tasks[i].id != id ==> r[i] == tasks[i]
    ensures forall i :: 0 <= i < |tasks| && tasks[i].id == id ==>
              r[i].isCompleted == !tasks[i].isCompleted &&
              r[i].(isCompleted := tasks[i].isCompleted) == tasks[i]
  {
    seq(|tasks|, i requires 0 <= i < |tasks| =>
      if tasks[i].id == id then tasks[i].(isCompleted := !tasks[i].isCompleted) else tasks[i])
  }

  /** Toggling the same id twice restores the list. */
  lemma ToggleTwice(tasks: seq<Task>, id: string)
    ensures ToggleComplete(ToggleComplete(tasks, id), id) == tasks
  {
    var once := ToggleComplete(tasks, id);
    var twice := ToggleComplete(once, id);
    forall i | 0 <= i < |tasks| ensures twice[i] == tasks[i] {
      assert once[i].id == tasks[i].id;
    }
  }

  /** Toggling an id no task has changes nothing. */
  lemma ToggleAbsent(tasks: seq<Task>, id: string)
    requires forall t :: t in tasks ==> t.id != id
    ensures ToggleComplete(tasks, id) == tasks
  {
    var r := ToggleComplete(tasks, id);
    forall i | 0 <= i < |tasks| ensures r[i] == tasks[i] {
      assert tasks[i] in tasks;
    }
  }

  /** `xs.filter(x => x.id !== id)`. */
  function RemoveById<T(!new)>(xs: seq<T>, idOf: T -> string, id: string): (r: seq<T>)
    ensures IsSubsequence(r, xs)
    ensures forall x :: x in r <==> x in xs && idOf(x) != id
  {
    var keep := (x: T) => idOf(x) != id;
    FilterIsSubsequence(xs, keep);
    FilterMembers(xs, keep);
    Filter(xs, keep)
  }

  /** Deleting removes exactly the records with the id: the kept and the
      removed records together are the whole list. */
  lemma RemoveCount<T(!new)>(xs: seq<T>, idOf: T -> string, id: string)
    ensures |RemoveById(xs, idOf, id)| + |Filter(xs, (x: T) => idOf(x) == id)| == |xs|
  {
    var keep := (x: T) => idOf(x) != id;
    FilterPartition(xs, keep);
    FilterExtensional(xs, Not(keep), (x: T) => idOf(x) == id);
  }

  /** Deleting the same id twice is deleting it once. */
  lemma RemoveIdempotent<T(!new)>(xs: seq<T>, idOf: T -> string, id: string)
    ensures RemoveById(RemoveById(xs, idOf, id), idOf, id) == RemoveById(xs, idOf, id)
  {
    var once := RemoveById(xs, idOf, id);
    FilterAll(once, (x: T) => idOf(x) != id);
  }

  /** `xs.map(y => y.id === x.id ? x : y)`. */
  function ReplaceById<T>(xs: seq<T>, idOf: T -> string, x: T): (r: seq<T>)
    ensures |r| == |xs|
    ensures forall i :: 0 <= i < |xs| ==> idOf(r[i]) == idOf(xs[i])
    ensures forall i :: 0 <= i < |xs| && idOf(xs[i]) == idOf(x) ==> r[i] == x
    ensures forall i :: 0 <= i < |xs| && idOf(xs[i]) != idOf(x) ==> r[i] == xs[i]
  {
    seq(|xs|, i requires 0 <= i < |xs| => if idOf(xs[i]) == idOf(x) then x else xs[i])
  }

  /** Saving the same edit twice is saving it once, and saving over a list
      with no record of that id changes nothing. */
  lemma ReplaceIdempotent<T(!new)>(xs: seq<T>, idOf: T -> string, x: T)
    ensures ReplaceById(ReplaceById(xs, idOf, x), idOf, x) == ReplaceById(xs, idOf, x)
    ensures (forall y :: y in xs ==> idOf(y) != idOf(x)) ==> ReplaceById(xs, idOf, x) == xs
  {
    if forall y :: y in xs ==> idOf(y) != idOf(x) {
      var r := ReplaceById(xs, idOf, x);
      forall i | 0 <= i < |xs| ensures r[i] == xs[i] {
        assert xs[i] in xs;
      }
    }
  }
}
