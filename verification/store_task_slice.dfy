/** The `tasks` slice of src/store/taskSlice.ts. It shares the state shape
    and list operations of the other slice, but `setTasks` only replaces the
    list, and filters are set one key at a time. */
module StoreTaskSlice {
  import opened Tasks
  import opened TaskState
  import Seqs

  /** The actions the slice exports. */
  datatype Action =
    | SetTasks(tasks: seq<Task>)
    | AddTask(task: Task)
    | UpdateTask(task: Task)
    | DeleteTask(id: string)
    | SetFilter(key: FilterKey, value: string)
    | SetSortBy(sortBy: string)

  /** `setTasks`: the list is replaced; status, error, filters and sort
      key stay as they were. */
  function SetTasksReducer(s: State, tasks: seq<Task>): (r: State)
    ensures r.items == tasks
    ensures r.status == s.status && r.error == s.error && r.filters == s.filters && r.sortBy == s.sortBy
  {
    s.(items := tasks)
  }

  /** `addTask`: the payload is appended after the existing tasks. */
  function AddTaskReducer(s: State, task: Task): (r: State)
    ensures |r.items| == |s.items| + 1
    ensures r.items[|s.items|] == task && r.items[..|s.items|] == s.items
    ensures r.status == s.status && r.error == s.error && r.filters == s.filters && r.sortBy == s.sortBy
  {
    s.(items := Append(s.items, task))
  }

  /** `updateTask`: the first task with the payload's id is replaced; an
      unknown id changes nothing; the length never changes. */
  function UpdateTaskReducer(s: State, task: Task): (r: State)
    ensures |r.items| == |s.items|
    ensures !HasId(s.items, task.id) ==> r == s
    ensures HasId(s.items, task.id) ==>
      exists k :: FirstWithId(s.items, task.id, k) && r.items == s.items[k := task]
    ensures r.status == s.status && r.error == s.error && r.filters == s.filters && r.sortBy == s.sortBy
  {
    s.(items := ReplaceFirst(s.items, task))
  }

  /** `deleteTask`: every task with the id is removed, the others stay. */
  function DeleteTaskReducer(s: State, id: string): (r: State)
    ensures !HasId(r.items, id)
    ensures forall i :: 0 <= i < |s.items| && s.items[i].id != id ==> s.items[i] in r.items
    ensures |r.items| + Seqs.Count(s.items, (t: Task) => t.id == id) == |s.items|
    ensures r.status == s.status && r.error == s.error && r.filters == s.filters && r.sortBy == s.sortBy
  {
    s.(items := RemoveId(s.items, id))
  }

  /** `setFilter`: exactly the named key changes. */
  function SetFilterReducer(s: State, key: FilterKey, value: string): (r: State)
    ensures r.filters.Get(key) == value
    ensures forall k :: k != key ==> r.filters.Get(k) == s.filters.Get(k)
    ensures r.items == s.items && r.status == s.status && r.error == s.error && r.sortBy == s.sortBy
  {
    s.(filters := s.filters.With(key, value))
  }

  /** `setSortBy`: only the sort key changes. */
  function SetSortByReducer(s: State, sortBy: string): (r: State)
    ensures r.sortBy == sortBy
    ensures r.items == s.items && r.status == s.status && r.error == s.error && r.filters == s.filters
  {
    s.(sortBy := sortBy)
  }

  /** The slice reducer. No action of this slice touches the request status
      or the error, so they keep their initial values for ever. */
  function Reduce(s: State, a: Action): (r: State)
    ensures r.status == s.status && r.error == s.error
    ensures !(a.SetTasks? || a.AddTask? || a.UpdateTask? || a.DeleteTask?) ==> r.items == s.items
    ensures !a.SetFilter? ==> r.filters == s.filters
    ensures !a.SetSortBy? ==> r.sortBy == s.sortBy
  {
    match a
    case SetTasks(ts) => SetTasksReducer(s, ts)
    case AddTask(t) => AddTaskReducer(s, t)
    case UpdateTask(t) => UpdateTaskReducer(s, t)
    case DeleteTask(id) => DeleteTaskReducer(s, id)
    case SetFilter(k, v) => SetFilterReducer(s, k, v)
    case SetSortBy(k) => SetSortByReducer(s, k)
  }

  /** Folds a sequence of actions from a start state. */
  function ReduceAll(s: State, actions: seq<Action>): State
    decreases |actions|
  {
    if |actions| == 0 then s else ReduceAll(Reduce(s, actions[0]), actions[1..])
  }

  /** Whatever is dispatched, the request status and error stay as they
      were; from the initial state the slice is idle and error-free for
      ever. */
  lemma {:induction false} ReduceAllKeepsRequestState(s: State, actions: seq<Action>)
    ensures ReduceAll(s, actions).status == s.status
    ensures ReduceAll(s, actions).error == s.error
    ensures s == Initial ==> ReduceAll(s, actions).status == Idle && ReduceAll(s, actions).error.None?
    decreases |actions|
  {
    if |actions| > 0 {
      ReduceAllKeepsRequestState(Reduce(s, actions[0]), actions[1..]);
    }
  }

  /** Setting a filter key twice keeps the second value. */
  lemma SetFilterOverwrites(s: State, key: FilterKey, v1: string, v2: string)
    ensures SetFilterReducer(SetFilterReducer(s, key, v1), key, v2) == SetFilterReducer(s, key, v2)
  {
  }

  /** `deleteTask` keeps the surviving tasks in their original order and is
      idempotent. */
  lemma DeleteTaskKeepsOrder(s: State, id: string)
    ensures Seqs.IsSubsequence(DeleteTaskReducer(s, id).items, s.items)
    ensures DeleteTaskReducer(DeleteTaskReducer(s, id), id) == DeleteTaskReducer(s, id)
  {
    RemoveIdKeepsOrder(s.items, id);
    RemoveIdIdempotent(s.items, id);
  }
}
