/** The chart counts and the list of src/components/tasks/AllTasks.tsx. */
module AllTasksView {
  import opened Tasks
  import opened TaskQuery
  import Seqs

  /** `statusCounts`: how many tasks are completed, in progress, pending. */
  datatype StatusCounts = StatusCounts(completed: nat, inProgress: nat, pending: nat)

  /** Counts the tasks of each of the three named statuses. */
  function CountByStatus(tasks: seq<Task>): (c: StatusCounts)
    ensures c.completed == CountStatus(tasks, Completed)
    ensures c.inProgress == CountStatus(tasks, InProgress)
    ensures c.pending == CountStatus(tasks, Pending)
  {
    StatusCounts(
      CountStatus(tasks, Completed),
      CountStatus(tasks, InProgress),
      CountStatus(tasks, Pending))
  }

  /** The doughnut's labels, in display order. */
  const Labels: seq<string> := ["Completed", "In Progress", "Pending"]

  /** The status a chart label stands for. */
  function LabelStatus(name: string): Status
    requires name in Labels
  {
    if name == "Completed" then Completed
    else if name == "In Progress" then InProgress
    else assert name == "Pending"; Pending
  }

  /** The doughnut's data: one value per label, the number of tasks with
      the status that label names. */
  function ChartData(tasks: seq<Task>): (d: seq<nat>)
    ensures |d| == |Labels|
    ensures forall i :: 0 <= i < |Labels| ==> d[i] == CountStatus(tasks, LabelStatus(Labels[i]))
  {
    var c := CountByStatus(tasks);
    [c.completed, c.inProgress, c.pending]
  }

  /** The labels name three different statuses, so every task of a named
      status is counted in exactly one slice, and the slices add up to the
      number of tasks when no task has another status. */
  lemma ChartCoversTasks(tasks: seq<Task>)
    ensures forall i, j :: 0 <= i < j < |Labels| ==> LabelStatus(Labels[i]) != LabelStatus(Labels[j])
    ensures var d := ChartData(tasks);
      d[0] + d[1] + d[2] <= |tasks|
    ensures var d := ChartData(tasks);
      d[0] + d[1] + d[2] == |tasks| <==> forall i :: 0 <= i < |tasks| ==> !tasks[i].status.Other?
  {
    CountsBound(tasks);
  }

  /** The three counts never exceed the number of tasks, and add up to it
      exactly when no task has a status outside the three. */
  lemma CountsBound(tasks: seq<Task>)
    ensures var c := CountByStatus(tasks);
      c.completed + c.inProgress + c.pending <= |tasks|
    ensures var c := CountByStatus(tasks);
      c.completed + c.inProgress + c.pending == |tasks| <==>
      forall i :: 0 <= i < |tasks| ==> !tasks[i].status.Other?
  {
    CountsPartition(tasks);
  }

  /** A single count is the number of tasks of that exact status: adding a
      task raises its own status's count by one and no other. */
  lemma CountAppend(tasks: seq<Task>, t: Task, status: Status)
    ensures CountStatus(tasks + [t], status) == CountStatus(tasks, status) + (if t.status == status then 1 else 0)
  {
    var p := (x: Task) => x.status == status;
    Seqs.FilterAppend(tasks, [t], p);
    Seqs.FilterLength(tasks + [t], p);
    Seqs.FilterLength(tasks, p);
    Seqs.FilterLength([t], p);
  }

  /** What the list area shows. */
  datatype Body = NoTasks | Rows(shown: seq<Task>)

  /** The list area: the "no tasks found" message appears exactly when no
      task passes the filter and search, whether or not any task exists. */
  function Render(tasks: seq<Task>, f: StatusFilter, query: string): (b: Body)
    ensures b.NoTasks? <==> forall i :: 0 <= i < |tasks| ==> !Keeps(tasks[i], f, query)
    ensures b.Rows? ==> b.shown == FilteredTasks(tasks, f, query) && |b.shown| > 0
    ensures b.Rows? ==> Seqs.IsSubsequence(b.shown, tasks)
  {
    var shown := FilteredTasks(tasks, f, query);
    FilteredIsSubsequence(tasks, f, query);
    if |shown| == 0 then NoTasks
    else
      assert shown[0] in tasks;
      Rows(shown)
  }

  /** With `all` selected and nothing typed, every task is listed, or the
      empty message shows when there is none. */
  lemma NoCriteriaListsAll(tasks: seq<Task>)
    ensures Render(tasks, All, "") == if |tasks| == 0 then NoTasks else Rows(tasks)
  {
    NoCriteriaKeepsAll(tasks);
  }
}
