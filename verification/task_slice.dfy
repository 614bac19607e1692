/** The `tasks` slice of src/store/slices/taskSlice.ts: reducers as pure
    functions from state to state. */
module TaskSlice {
  import opened Wrappers
  import opened Tasks
  import opened TaskState
  import Seqs

  /** The payload of `setFilters`: every key is optional. */
  datatype FiltersPatch = FiltersPatch(status: Option<string>, priority: Option<string>, search: Option<string>) {
    function Get(key: FilterKey): Option<string> {
      match key
      case StatusKey => status
      case PriorityKey => priority
      case SearchKey => search
    }
  }

  /** The actions the slice exports. */
  datatype Action =
    | SetTasks(tasks: seq<Task>)
    | AddTask(task: Task)
    | UpdateTask(task: Task)
    | DeleteTask(id: string)
    | SetStatus(status: LoadStatus)
    | SetError(message: string)
    | SetFilters(patch: FiltersPatch)
    | SetSortBy(sortBy: string)

  /** `setTasks`: the list is replaced wholesale, the request is marked
      successful and any error is cleared. */
  function SetTasksReducer(s: State, tasks: seq<Task>): (r: State)
    ensures r.items == tasks && r.status == Succeeded && r.error == None
    ensures r.filters == s.filters && r.sortBy == s.sortBy
  {
    s.(items := tasks, status := Succeeded, error := None)
  }

  /** `addTask`: the payload becomes the new last element; everything
      before it and every other field is as it was. */
  function AddTaskReducer(s: State, task: Task): (r: State)
    ensures |r.items| == |s.items| + 1
    ensures r.items[|s.items|] == task && r.items[..|s.items|] == s.items
    ensures r.status == s.status && r.error == s.error && r.filters == s.filters && r.sortBy == s.sortBy
  {
    s.(items := Append(s.items, task))
  }

  /** `updateTask`: only the first task with the payload's id is replaced,
      later tasks with the same id included; an unknown id is a no-op. */
  function UpdateTaskReducer(s: State, task: Task): (r: State)
    ensures |r.items| == |s.items|
    ensures !HasId(s.items, task.id) ==> r == s
    ensures HasId(s.items, task.id) ==>
      exists k :: FirstWithId(s.items, task.id, k) && r.items == s.items[k := task]
    ensures r.status == s.status && r.error == s.error && r.filters == s.filters && r.sortBy == s.sortBy
  {
    s.(items := ReplaceFirst(s.items, task))
  }

  /** `deleteTask`: no task with the id survives; every other task does. */
  function DeleteTaskReducer(s: State, id: string): (r: State)
    ensures !HasId(r.items, id)
    ensures forall i :: 0 <= i < |s.items| && s.items[i].id != id ==> s.items[i] in r.items
    ensures |r.items| + Seqs.Count(s.items, (t: Task) => t.id == id) == |s.items|
    ensures r.status == s.status && r.error == s.error && r.filters == s.filters && r.sortBy == s.sortBy
  {
    s.(items := RemoveId(s.items, id))
  }

  /** `setStatus`: only the status changes. */
  function SetStatusReducer(s: State, status: LoadStatus): (r: State)
    ensures r.status == status
    ensures r.items == s.items && r.error == s.error && r.filters == s.filters && r.sortBy == s.sortBy
  {
    s.(status := status)
  }

  /** `setError`: the error is recorded and the status forced to failed. */
  function SetErrorReducer(s: State, message: string): (r: State)
    ensures r.error == Some(message) && r.status == Failed
    ensures r.items == s.items && r.filters == s.filters && r.sortBy == s.sortBy
  {
    s.(error := Some(message), status := Failed)
  }

  /** `setFilters`: the keys present in the patch overwrite, absent keys keep
      their previous values (`{ ...state.filters, ...payload }`). */
  function SetFiltersReducer(s: State, patch: FiltersPatch): (r: State)
    ensures forall k :: patch.Get(k).Some? ==> r.filters.Get(k) == patch.Get(k).value
    ensures forall k :: patch.Get(k).None? ==> r.filters.Get(k) == s.filters.Get(k)
    ensures r.items == s.items && r.status == s.status && r.error == s.error && r.sortBy == s.sortBy
  {
    var f := s.filters;
    s.(filters := Filters(
      patch.status.GetOr(f.status),
      patch.priority.GetOr(f.priority),
      patch.search.GetOr(f.search)))
  }

  /** `setSortBy`: only the sort key changes. */
  function SetSortByReducer(s: State, sortBy: string): (r: State)
    ensures r.sortBy == sortBy
    ensures r.items == s.items && r.status == s.status && r.error == s.error && r.filters == s.filters
  {
    s.(sortBy := sortBy)
  }

  /** The slice reducer: dispatches an action to its case reducer. Only the
      four list actions touch the list, and they touch nothing else except
      that `setTasks` settles the request. */
  function Reduce(s: State, a: Action): (r: State)
    ensures !(a.SetTasks? || a.AddTask? || a.UpdateTask? || a.DeleteTask?) ==> r.items == s.items
    ensures a.AddTask? || a.UpdateTask? || a.DeleteTask? ==> r.status == s.status && r.error == s.error
    ensures !(a.SetFilters?) ==> r.filters == s.filters
    ensures !(a.SetSortBy?) ==> r.sortBy == s.sortBy
  {
    match a
    case SetTasks(ts) => SetTasksReducer(s, ts)
    case AddTask(t) => AddTaskReducer(s, t)
    case UpdateTask(t) => UpdateTaskReducer(s, t)
    case DeleteTask(id) => DeleteTaskReducer(s, id)
    case SetStatus(st) => SetStatusReducer(s, st)
    case SetError(m) => SetErrorReducer(s, m)
    case SetFilters(p) => SetFiltersReducer(s, p)
    case SetSortBy(k) => SetSortByReducer(s, k)
  }

  /** A fresh list clears whatever failure was recorded before it. */
  lemma SetTasksClearsError(s: State, message: string, tasks: seq<Task>)
    ensures SetTasksReducer(SetErrorReducer(s, message), tasks) == SetTasksReducer(s, tasks)
  {
  }

  /** Deleting twice is deleting once. */
  lemma DeleteTaskIdempotent(s: State, id: string)
    ensures DeleteTaskReducer(DeleteTaskReducer(s, id), id) == DeleteTaskReducer(s, id)
  {
    RemoveIdIdempotent(s.items, id);
  }

  /** `deleteTask` keeps the surviving tasks in their original order. */
  lemma DeleteTaskKeepsOrder(s: State, id: string)
    ensures Seqs.IsSubsequence(DeleteTaskReducer(s, id).items, s.items)
  {
    RemoveIdKeepsOrder(s.items, id);
  }

  /** A patch naming every key replaces the filters outright; an empty
      patch leaves them alone. */
  lemma SetFiltersExtremes(s: State, f: Filters)
    ensures SetFiltersReducer(s, FiltersPatch(Some(f.status), Some(f.priority), Some(f.search))).filters == f
    ensures SetFiltersReducer(s, FiltersPatch(None, None, None)) == s
  {
  }
}
