/** The task-collection state both store slices hold, and the keyed
    sequence operations their reducers share (`push`, `findIndex` followed
    by an index write, and `filter` by id). */
module TaskState {
  import opened Wrappers
  import opened Tasks
  import Seqs

  /** The request status a slice records. */
  datatype LoadStatus = Idle | Loading | Succeeded | Failed

  /** The three keys of the filter record. */
  datatype FilterKey = StatusKey | PriorityKey | SearchKey

  /** The stored filter criteria; the empty string means "no filter". */
  datatype Filters = Filters(status: string, priority: string, search: string) {

    /** `filters[key]`. */
    function Get(key: FilterKey): string {
      match key
      case StatusKey => status
      case PriorityKey => priority
      case SearchKey => search
    }

    /** `filters[key] = value`: exactly one key changes. */
    function With(key: FilterKey, value: string): (r: Filters)
      ensures r.Get(key) == value
      ensures forall k :: k != key ==> r.Get(k) == Get(k)
    {
      match key
      case StatusKey => this.(status := value)
      case PriorityKey => this.(priority := value)
      case SearchKey => this.(search := value)
    }
  }

  /** The slice state: the task list, request status, last error, filter
      criteria and the (stored but never applied) sort key. */
  datatype State = State(
    items: seq<Task>,
    status: LoadStatus,
    error: Option<string>,
    filters: Filters,
    sortBy: string)

  /** The initial state of either slice. */
  const Initial: State := State([], Idle, None, Filters("", "", ""), "dueDate")

  /** The initial state holds no tasks, is idle without error, filters on
      nothing and names `dueDate` as its sort key. */
  lemma InitialState()
    ensures Initial.items == [] && Initial.status == Idle && Initial.error == None
    ensures forall k :: Initial.filters.Get(k) == ""
    ensures Initial.sortBy == "dueDate"
  {
  }

  /** Some task in `items` carries `id`. */
  predicate HasId(items: seq<Task>, id: string) {
    exists i :: 0 <= i < |items| && items[i].id == id
  }

  /** `k` is the first position in `items` whose task carries `id`. */
  ghost predicate FirstWithId(items: seq<Task>, id: string, k: int) {
    0 <= k < |items| && items[k].id == id && forall j :: 0 <= j < k ==> items[j].id != id
  }

  /** `items.findIndex(task => task.id === id)`: the first matching
      position, or -1 when no task carries `id`. */
  function FindIndex(items: seq<Task>, id: string): (k: int)
    ensures -1 <= k < |items|
    ensures k == -1 <==> !HasId(items, id)
    ensures k != -1 ==> FirstWithId(items, id, k)
  {
    if |items| == 0 then -1
    else if items[0].id == id then 0
    else
      var k := FindIndex(items[1..], id);
      assert forall i :: 1 <= i < |items| ==> items[i] == items[1..][i - 1];
      if k == -1 then -1 else k + 1
  }

  /** `items.push(task)`. */
  function Append(items: seq<Task>, task: Task): (r: seq<Task>)
    ensures |r| == |items| + 1
    ensures r[|items|] == task
    ensures r[..|items|] == items
  {
    items + [task]
  }

  /** The `updateTask` reducer on the list: the first task with the
      payload's id is replaced by the payload; nothing happens when no task
      carries that id. */
  function ReplaceFirst(items: seq<Task>, task: Task): (r: seq<Task>)
    ensures |r| == |items|
    ensures !HasId(items, task.id) ==> r == items
    ensures HasId(items, task.id) ==> exists k :: FirstWithId(items, task.id, k) && r == items[k := task]
  {
    var k := FindIndex(items, task.id);
    if k != -1 then items[k := task] else items
  }

  /** The `deleteTask` reducer on the list: every task with `id` goes, the
      rest stay in order. */
  function RemoveId(items: seq<Task>, id: string): (r: seq<Task>)
    ensures !HasId(r, id)
    ensures forall i :: 0 <= i < |items| && items[i].id != id ==> items[i] in r
    ensures |r| + Seqs.Count(items, (t: Task) => t.id == id) == |items|
  {
    var keep := (t: Task) => t.id != id;
    var r := Seqs.Filter(items, keep);
    CountComplement(items, id);
    Seqs.FilterLength(items, keep);
    r
  }

  /** A task has the id or it does not. */
  lemma {:induction false} CountComplement(items: seq<Task>, id: string)
    ensures Seqs.Count(items, (t: Task) => t.id != id) + Seqs.Count(items, (t: Task) => t.id == id) == |items|
  {
    if |items| > 0 {
      CountComplement(items[1..], id);
    }
  }

  /** `deleteTask` keeps the survivors in their original relative order. */
  lemma RemoveIdKeepsOrder(items: seq<Task>, id: string)
    ensures Seqs.IsSubsequence(RemoveId(items, id), items)
  {
    Seqs.FilterIsSubsequence(items, (t: Task) => t.id != id);
  }

  /** Deleting an id twice is deleting it once. */
  lemma RemoveIdIdempotent(items: seq<Task>, id: string)
    ensures RemoveId(RemoveId(items, id), id) == RemoveId(items, id)
  {
    Seqs.FilterIdempotent(items, (t: Task) => t.id != id);
  }

  /** Deleting an id nobody carries changes nothing. */
  lemma RemoveAbsentId(items: seq<Task>, id: string)
    requires !HasId(items, id)
    ensures RemoveId(items, id) == items
  {
    Seqs.FilterKeepsAll(items, (t: Task) => t.id != id);
  }

  /** Adding a task and then deleting its id is deleting the id. */
  lemma RemoveAfterAppend(items: seq<Task>, task: Task)
    ensures RemoveId(Append(items, task), task.id) == RemoveId(items, task.id)
  {
    var keep := (t: Task) => t.id != task.id;
    Seqs.FilterAppend(items, [task], keep);
    assert Seqs.Filter([task], keep) == [];
  }

  /** Updating a task and then deleting its id is deleting the id: the
      update touches nothing but a task the delete removes anyway. */
  lemma RemoveAfterReplace(items: seq<Task>, task: Task)
    ensures RemoveId(ReplaceFirst(items, task), task.id) == RemoveId(items, task.id)
  {
    var k := FindIndex(items, task.id);
    if k != -1 {
      var keep := (t: Task) => t.id != task.id;
      var r := items[k := task];
      assert items == items[..k] + [items[k]] + items[k + 1..];
      assert r == items[..k] + [task] + items[k + 1..];
      Seqs.FilterAppend(items[..k] + [items[k]], items[k + 1..], keep);
      Seqs.FilterAppend(items[..k], [items[k]], keep);
      Seqs.FilterAppend(items[..k] + [task], items[k + 1..], keep);
      Seqs.FilterAppend(items[..k], [task], keep);
    }
  }

  /** An update leaves the set of ids in the list as it was. */
  lemma ReplaceKeepsIds(items: seq<Task>, task: Task, id: string)
    ensures HasId(ReplaceFirst(items, task), id) <==> HasId(items, id)
  {
    var r := ReplaceFirst(items, task);
    var k := FindIndex(items, task.id);
    if k != -1 {
      if HasId(items, id) {
        var i :| 0 <= i < |items| && items[i].id == id;
        assert r[if i == k then k else i].id == id;
      }
      if HasId(r, id) {
        var i :| 0 <= i < |r| && r[i].id == id;
        assert items[if i == k then k else i].id == id;
      }
    }
  }
}
