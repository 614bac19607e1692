/** The list projection shared by the task list and the all-tasks view: a
    status filter combined with a case-insensitive search on title or
    description, and per-status counting. */
module TaskQuery {
  import opened Tasks
  import Text
  import Seqs

  /** The status drop-down: `all`, or one status. */
  datatype StatusFilter = All | Only(status: Status)

  /** `filter === 'all' || task.status === filter`. */
  predicate MatchesFilter(t: Task, f: StatusFilter) {
    f.All? || t.status == f.status
  }

  /** `title.toLowerCase().includes(q.toLowerCase())`, or the same on the
      description. */
  predicate MatchesSearch(t: Task, query: string) {
    var q := Text.LowerString(query);
    Text.Contains(Text.LowerString(t.title), q) || Text.Contains(Text.LowerString(t.description), q)
  }

  /** The callback given to `tasks.filter`. */
  predicate Keeps(t: Task, f: StatusFilter, query: string) {
    MatchesFilter(t, f) && MatchesSearch(t, query)
  }

  /** `filteredTasks`: exactly the tasks that pass both tests, each of the
      requested status. */
  function FilteredTasks(tasks: seq<Task>, f: StatusFilter, query: string): (r: seq<Task>)
    ensures |r| <= |tasks|
    ensures forall i :: 0 <= i < |tasks| ==> (tasks[i] in r <==> MatchesFilter(tasks[i], f) && MatchesSearch(tasks[i], query))
    ensures forall i :: 0 <= i < |r| ==> MatchesSearch(r[i], query)
    ensures f.Only? ==> forall i :: 0 <= i < |r| ==> r[i].status == f.status
    ensures |r| == Seqs.Count(tasks, (t: Task) => Keeps(t, f, query))
  {
    Seqs.FilterLength(tasks, (t: Task) => Keeps(t, f, query));
    Seqs.Filter(tasks, (t: Task) => Keeps(t, f, query))
  }

  /** The projection only drops tasks; it never reorders or invents them. */
  lemma FilteredIsSubsequence(tasks: seq<Task>, f: StatusFilter, query: string)
    ensures Seqs.IsSubsequence(FilteredTasks(tasks, f, query), tasks)
    ensures forall i :: 0 <= i < |FilteredTasks(tasks, f, query)| ==> FilteredTasks(tasks, f, query)[i] in tasks
  {
    Seqs.FilterIsSubsequence(tasks, (t: Task) => Keeps(t, f, query));
    Seqs.FilterFromInput(tasks, (t: Task) => Keeps(t, f, query));
  }

  /** An empty search box matches every task. */
  lemma EmptySearchMatches(t: Task)
    ensures MatchesSearch(t, "")
  {
    Text.EmptyNeedleFound(Text.LowerString(t.title));
  }

  /** With `all` selected and nothing typed, the list is shown unchanged. */
  lemma NoCriteriaKeepsAll(tasks: seq<Task>)
    ensures FilteredTasks(tasks, All, "") == tasks
  {
    forall i | 0 <= i < |tasks|
      ensures Keeps(tasks[i], All, "")
    {
      EmptySearchMatches(tasks[i]);
    }
    Seqs.FilterKeepsAll(tasks, (t: Task) => Keeps(t, All, ""));
  }

  /** The search ignores the case of the query. */
  lemma SearchIgnoresQueryCase(t: Task, query: string)
    ensures MatchesSearch(t, query) <==> MatchesSearch(t, Text.LowerString(query))
  {
    assert Text.LowerString(Text.LowerString(query)) == Text.LowerString(query);
  }

  /** `tasks.filter(t => t.status === status).length`. */
  function CountStatus(tasks: seq<Task>, status: Status): (n: nat)
    ensures n <= |tasks|
    ensures n == 0 <==> forall i :: 0 <= i < |tasks| ==> tasks[i].status != status
  {
    Seqs.Count(tasks, (t: Task) => t.status == status)
  }

  /** `tasks.filter(t => t.status === status)`. */
  function WithStatus(tasks: seq<Task>, status: Status): (r: seq<Task>)
    ensures forall i :: 0 <= i < |r| ==> r[i].status == status
    ensures forall i :: 0 <= i < |tasks| ==> (tasks[i] in r <==> tasks[i].status == status)
  {
    Seqs.Filter(tasks, (t: Task) => t.status == status)
  }

  /** The list of one status is as long as that status's count. */
  lemma WithStatusLength(tasks: seq<Task>, status: Status)
    ensures |WithStatus(tasks, status)| == CountStatus(tasks, status)
  {
    Seqs.FilterLength(tasks, (t: Task) => t.status == status);
  }

  /** A task whose status is none of the three named ones. */
  predicate HasOtherStatus(t: Task) {
    t.status.Other?
  }

  /** Every task is counted under exactly one of the three named statuses
      or is of some other status. */
  lemma {:induction false} CountsPartition(tasks: seq<Task>)
    ensures CountStatus(tasks, Pending) + CountStatus(tasks, InProgress) + CountStatus(tasks, Completed)
            + Seqs.Count(tasks, HasOtherStatus) == |tasks|
  {
    if |tasks| > 0 {
      CountsPartition(tasks[1..]);
    }
  }
}
