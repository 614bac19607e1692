/** The three columns of src/components/tasks/TaskCategories.tsx. */
module TaskCategoriesView {
  import opened Tasks
  import opened TaskQuery
  import AllTasksView
  import Seqs

  /** The tasks split by status. */
  datatype Categories = Categories(pending: seq<Task>, inProgress: seq<Task>, completed: seq<Task>)

  /** Splits the tasks into pending, in-progress and completed lists: each
      list holds only its status, and every task of one of these statuses
      lands in exactly the list of its status. */
  function Categorize(tasks: seq<Task>): (c: Categories)
    ensures forall i :: 0 <= i < |c.pending| ==> c.pending[i].status == Pending
    ensures forall i :: 0 <= i < |c.inProgress| ==> c.inProgress[i].status == InProgress
    ensures forall i :: 0 <= i < |c.completed| ==> c.completed[i].status == Completed
    ensures forall i :: 0 <= i < |tasks| && tasks[i].status == Pending ==>
      tasks[i] in c.pending && tasks[i] !in c.inProgress && tasks[i] !in c.completed
    ensures forall i :: 0 <= i < |tasks| && tasks[i].status == InProgress ==>
      tasks[i] !in c.pending && tasks[i] in c.inProgress && tasks[i] !in c.completed
    ensures forall i :: 0 <= i < |tasks| && tasks[i].status == Completed ==>
      tasks[i] !in c.pending && tasks[i] !in c.inProgress && tasks[i] in c.completed
    ensures forall i :: 0 <= i < |tasks| && tasks[i].status.Other? ==>
      tasks[i] !in c.pending && tasks[i] !in c.inProgress && tasks[i] !in c.completed
  {
    Categories(
      WithStatus(tasks, Pending),
      WithStatus(tasks, InProgress),
      WithStatus(tasks, Completed))
  }

  /** No task sits in two columns. */
  lemma Disjoint(tasks: seq<Task>)
    ensures var c := Categorize(tasks);
      (forall x :: x in c.pending ==> x !in c.inProgress && x !in c.completed)
      && (forall x :: x in c.inProgress ==> x !in c.completed)
  {
  }

  /** Each column keeps the tasks in their list order. */
  lemma ColumnsKeepOrder(tasks: seq<Task>)
    ensures var c := Categorize(tasks);
      Seqs.IsSubsequence(c.pending, tasks)
      && Seqs.IsSubsequence(c.inProgress, tasks)
      && Seqs.IsSubsequence(c.completed, tasks)
  {
    Seqs.FilterIsSubsequence(tasks, (t: Task) => t.status == Pending);
    Seqs.FilterIsSubsequence(tasks, (t: Task) => t.status == InProgress);
    Seqs.FilterIsSubsequence(tasks, (t: Task) => t.status == Completed);
  }

  /** The column sizes are the chart's counts, and together they never
      exceed the number of tasks. */
  lemma ColumnsMatchChart(tasks: seq<Task>)
    ensures var c := Categorize(tasks);
      var n := AllTasksView.CountByStatus(tasks);
      |c.pending| == n.pending && |c.inProgress| == n.inProgress && |c.completed| == n.completed
    ensures var c := Categorize(tasks);
      |c.pending| + |c.inProgress| + |c.completed| <= |tasks|
  {
    WithStatusLength(tasks, Pending);
    WithStatusLength(tasks, InProgress);
    WithStatusLength(tasks, Completed);
    AllTasksView.CountsBound(tasks);
  }
}
