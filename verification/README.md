# Task manager client: verified model of its pure logic

This project models, in Dafny, the part of a task-management web client
that is deterministic and free of I/O. The client is a React/Redux front end
over a REST API. The model covers:

- the two copies of the `tasks` store slice (`src/store/slices/taskSlice.ts`
  and `src/store/taskSlice.ts`). Their reducers are pure `State -> State`
  functions over an immutable `seq<Task>` keyed by task id.
- the list projections of the task views: the status filter combined with a
  case-insensitive search in `TaskList` and `AllTasks`, the empty-state
  decision, the per-status counts of the chart and the three columns of
  `TaskCategories`.
- the three forms. These are the dialog task form with its image checks, the
  create-task form that dispatches to the store, and the sign-up form. Each
  maps form state to an error message or to the fields it submits.
- the `auth` slice together with the `localStorage` entry it persists, as one
  `Session` value.
- the interceptor logic of the two HTTP wrappers. This is the bearer header,
  the error-message fallback chain, the 401 session reset and the
  per-call Content-Type override.

Layout, one module per source file plus shared modules:

| file | module | models |
|---|---|---|
| wrappers.dfy | Wrappers | `Option` (null) and `Result` (error path) |
| text.dfy | Text | `trim`, `toLowerCase`, `includes`, `startsWith`, truthiness and `\|\|` on strings |
| seqs.dfy | Seqs | `filter`, `filter(...).length`, order-preserving subsequence |
| local_storage.dfy | LocalStorage | `localStorage` as `map<string, string>` |
| tasks.dfy | Tasks | the `Task` record and its status |
| task_state.dfy | TaskState | the state shape and list operations both slices share |
| task_slice.dfy | TaskSlice | src/store/slices/taskSlice.ts |
| store_task_slice.dfy | StoreTaskSlice | src/store/taskSlice.ts |
| task_query.dfy | TaskQuery | the filter/search predicate and status counting |
| task_list_view.dfy | TaskListView | src/components/tasks/TaskList.tsx |
| all_tasks_view.dfy | AllTasksView | src/components/tasks/AllTasks.tsx |
| task_categories_view.dfy | TaskCategoriesView | src/components/tasks/TaskCategories.tsx |
| form_payload.dfy | FormPayload | multipart `FormData` entries and `get` |
| task_form_dialog.dfy | TaskFormDialog | src/components/TaskForm.tsx |
| create_task_form.dfy | CreateTaskForm | src/components/tasks/TaskForm.tsx |
| register_form.dfy | RegisterForm | src/components/auth/RegisterForm.tsx |
| auth_slice.dfy | AuthSlice | src/store/slices/authSlice.ts |
| http_client.dfy | HttpClient | interceptor logic shared by the two wrappers |
| services_api.dfy | ServicesApi | src/services/api.ts |
| utils_api.dfy | UtilsApi | src/utils/api.ts |

Modelling choices:

- A task status is `Pending | InProgress | Completed | Other(name)`. The
  declared `Task.status` type omits `in-progress`, but the views use it.
  `Other` carries any other text. The subset type `Tasks.Status` rules out
  an `Other` that spells one of the three names, so comparing statuses is
  comparing wire names (`Tasks.NameInjective`). `Tasks.ParseStatus` and
  `Tasks.StatusName` convert between statuses and wire names.
- JavaScript truthiness of a string that may be `null` is `Text.Truthy`:
  the string is present and non-empty. `a || b` is `Text.Or`, so an empty
  server message falls through to the next candidate.
- The views read `tasks`, `loading` and `error` from `state.tasks`. The
  store (src/store/index.ts:6-11) wires the slice of
  src/store/slices/taskSlice.ts there, which holds `items` and `status`
  instead. As written, `tasks` is therefore undefined and `tasks.filter`
  throws on the first render of `TaskList`, `AllTasks` and
  `TaskCategories`. The model takes the task list, the loading flag and
  the error as inputs to each view, which is what the views evidently
  intend.
- `filters.priority` and `sortBy` are stored but never read, so the model
  has no priority filter and no sort. No status toggle exists in the code.

## Model

| member | source | states |
|---|---|---|
| TaskState.InitialState | src/store/slices/taskSlice.ts:4-14 | the initial slice state has no tasks, status idle, no error, all three filters empty and sort key `dueDate` |
| TaskState.FindIndex | src/store/slices/taskSlice.ts:29 | `findIndex` returns -1 exactly when no task has the id, otherwise the first position with that id |
| TaskState.Append | src/store/slices/taskSlice.ts:26 | `push` makes the list one longer, with the task last and the old list unchanged before it |
| TaskState.ReplaceFirst | src/store/slices/taskSlice.ts:28-33 | the length is kept; an unknown id is a no-op; otherwise exactly the first position with the id is overwritten and later duplicates are left alone |
| TaskState.RemoveId | src/store/slices/taskSlice.ts:34-36 | no task with the id survives, every other task does, and the length drops by exactly the number of tasks with the id |
| TaskState.RemoveIdKeepsOrder | src/store/slices/taskSlice.ts:35 | the survivors of a delete are an order-preserving subsequence of the list |
| TaskState.RemoveIdIdempotent | src/store/slices/taskSlice.ts:35 | deleting an id twice is deleting it once |
| TaskState.RemoveAbsentId | src/store/taskSlice.ts:32-34 | deleting an id that no task has changes nothing |
| TaskState.RemoveAfterAppend | src/store/slices/taskSlice.ts:25-36 | adding a task and then deleting its id equals deleting the id |
| TaskState.RemoveAfterReplace | src/store/slices/taskSlice.ts:28-36 | updating a task and then deleting its id equals deleting the id |
| TaskState.ReplaceKeepsIds | src/store/slices/taskSlice.ts:28-33 | an update never adds or removes an id from the list |
| TaskSlice.SetTasksReducer | src/store/slices/taskSlice.ts:20-24 | `setTasks` replaces the list wholesale, marks the request succeeded and clears the error; filters and sort key are unchanged |
| TaskSlice.AddTaskReducer | src/store/slices/taskSlice.ts:25-27 | `addTask` makes the list one longer, with the payload last and the old list as prefix; other fields unchanged |
| TaskSlice.UpdateTaskReducer | src/store/slices/taskSlice.ts:28-33 | `updateTask` overwrites only the first task with the payload's id, or changes nothing at all when the id is absent |
| TaskSlice.DeleteTaskReducer | src/store/slices/taskSlice.ts:34-36 | `deleteTask` leaves no task with the id, keeps every other task, and the length drops by the number removed |
| TaskSlice.SetStatusReducer | src/store/slices/taskSlice.ts:37-39 | `setStatus` changes the status only |
| TaskSlice.SetErrorReducer | src/store/slices/taskSlice.ts:40-43 | `setError` records the error and forces status failed |
| TaskSlice.SetFiltersReducer | src/store/slices/taskSlice.ts:44-46 | keys present in the patch overwrite; absent keys keep their previous values; nothing else changes |
| TaskSlice.SetSortByReducer | src/store/slices/taskSlice.ts:47-49 | `setSortBy` changes the sort key only |
| TaskSlice.Reduce | src/store/slices/taskSlice.ts:19-50 | only the four list actions touch the list; add, update and delete leave status and error alone; only `setFilters` changes the filters and only `setSortBy` the sort key |
| TaskSlice.SetTasksClearsError | src/store/slices/taskSlice.ts:20-24 | a fresh list clears any earlier failure |
| TaskSlice.DeleteTaskIdempotent | src/store/slices/taskSlice.ts:34-36 | the `deleteTask` reducer is idempotent |
| TaskSlice.DeleteTaskKeepsOrder | src/store/slices/taskSlice.ts:35 | after `deleteTask` the remaining tasks keep their relative order |
| TaskSlice.SetFiltersExtremes | src/store/slices/taskSlice.ts:45 | a patch naming every key replaces the filters; an empty patch changes nothing |
| StoreTaskSlice.SetTasksReducer | src/store/taskSlice.ts:20-22 | this `setTasks` replaces only the list; status, error, filters and sort key are untouched |
| StoreTaskSlice.AddTaskReducer | src/store/taskSlice.ts:23-25 | the payload is appended after the unchanged existing tasks |
| StoreTaskSlice.UpdateTaskReducer | src/store/taskSlice.ts:26-31 | the first match is replaced; no match is a no-op; the length is kept |
| StoreTaskSlice.DeleteTaskReducer | src/store/taskSlice.ts:32-34 | every task with the id goes and every other task stays |
| StoreTaskSlice.SetFilterReducer | src/store/taskSlice.ts:35-37 | exactly the named filter key changes; the other two are unchanged |
| StoreTaskSlice.SetSortByReducer | src/store/taskSlice.ts:38-40 | only the sort key changes |
| StoreTaskSlice.Reduce | src/store/taskSlice.ts:18-41 | no action of this slice changes status or error; each of the other fields is changed only by its own actions |
| StoreTaskSlice.ReduceAllKeepsRequestState | src/store/taskSlice.ts:4-41 | after any sequence of actions from the initial state the slice is still idle and error-free |
| StoreTaskSlice.SetFilterOverwrites | src/store/taskSlice.ts:35-37 | setting a key twice keeps the second value |
| StoreTaskSlice.DeleteTaskKeepsOrder | src/store/taskSlice.ts:32-34 | the survivors keep their order, and deleting twice is deleting once |
| Text.Trim | src/components/TaskForm.tsx:51 | `trim` removes exactly the whitespace before and after the text: the result sits in the input with only whitespace on either side, neither starts nor ends with whitespace, and is empty exactly when the input is blank |
| Text.TrimIdempotent | src/components/TaskForm.tsx:51 | trimming an already trimmed string changes nothing |
| Text.LowerString | src/components/tasks/TaskList.tsx:32-33 | `toLowerCase` keeps the length and maps each character to its lower-case form |
| Text.StartsWith | src/components/TaskForm.tsx:73 | `startsWith` holds exactly when the string is at least as long as the prefix and agrees with it position by position |
| Text.StartsWithContains | src/components/TaskForm.tsx:73 | a string that starts with a prefix also contains it |
| Text.Or | src/services/api.ts:51 | `a \|\| b` on a string that may be null yields `a` when it is present and non-empty, and `b` otherwise |
| Text.Contains | src/components/tasks/TaskList.tsx:32-33 | `includes` is true exactly when the needle occurs at some position |
| Text.EmptyNeedleFound | src/components/tasks/TaskList.tsx:32-33 | the empty query occurs in every string |
| Tasks.ParseStatus | src/components/tasks/TaskList.tsx:78-81 | reading a wire name gives `Other` exactly for names outside the three, and writing it back gives the same name |
| Tasks.NameInjective | src/components/tasks/TaskList.tsx:31 | two statuses are equal exactly when their wire names are, so comparing statuses agrees with `task.status === filter` |
| TaskQuery.FilteredTasks | src/components/tasks/TaskList.tsx:30-35 | a task is kept exactly when the status filter (`all` or equal) and the case-insensitive search on title or description both match; a kept task has the filtered status; the result is as long as the number of passing tasks, duplicates included |
| TaskQuery.FilteredIsSubsequence | src/components/tasks/AllTasks.tsx:46-52 | the filtered list is an order-preserving subsequence of the tasks |
| TaskQuery.EmptySearchMatches | src/components/tasks/TaskList.tsx:32-33 | an empty search matches every task |
| TaskQuery.NoCriteriaKeepsAll | src/components/tasks/AllTasks.tsx:46-52 | with filter `all` and an empty search the list is shown unchanged |
| TaskQuery.SearchIgnoresQueryCase | src/components/tasks/TaskList.tsx:32-33 | the search result does not depend on the case of the query |
| TaskQuery.CountsPartition | src/components/tasks/AllTasks.tsx:22-28 | every task is counted under exactly one of the three statuses or has another status |
| TaskQuery.CountStatus | src/components/tasks/AllTasks.tsx:24-26 | the count of a status is at most the number of tasks, and zero exactly when no task has that status |
| TaskQuery.WithStatus | src/components/tasks/TaskCategories.tsx:8-10 | the tasks of one status: every kept task has it, and a task is kept exactly when it has it |
| TaskQuery.WithStatusLength | src/components/tasks/TaskCategories.tsx:8-10 | the list of one status is as long as that status's count |
| Seqs.Filter | src/components/tasks/TaskList.tsx:30-35 | `filter` never lengthens the list, keeps only elements passing the test, and keeps each element exactly when it passes |
| Seqs.Count | src/components/tasks/AllTasks.tsx:24-26 | `filter(...).length` is at most the length, zero exactly when no element passes, and the full length exactly when all do |
| Seqs.FilterLength | src/components/tasks/AllTasks.tsx:24-26 | the filtered list is as long as the count of passing elements |
| Seqs.FilterIsSubsequence | src/components/tasks/TaskList.tsx:30-35 | `filter` keeps the order of the elements it keeps |
| TaskListView.Render | src/components/tasks/TaskList.tsx:37-122 | loading shows the spinner; otherwise a truthy error shows the error panel with that error; otherwise the first-task prompt shows exactly when there are no tasks, the no-match message exactly when tasks exist but none is kept, and else exactly `filteredTasks` |
| TaskListView.NoCriteriaShowsAll | src/components/tasks/TaskList.tsx:30-122 | with filter `all`, an empty search and no loading or error, every task is shown in order, or the first-task prompt when there are none |
| TaskListView.SearchScenario | src/components/tasks/TaskList.tsx:30-35 | of "Team Meeting" and "Gym", the query "meet" keeps only "Team Meeting" |
| AllTasksView.CountByStatus | src/components/tasks/AllTasks.tsx:22-28 | each count is the number of tasks with exactly that status |
| AllTasksView.ChartData | src/components/tasks/AllTasks.tsx:30-34 | there is one value per label, and each is the number of tasks with the status its label (`Completed`, `In Progress`, `Pending`) names |
| AllTasksView.ChartCoversTasks | src/components/tasks/AllTasks.tsx:22-34 | the labels name three different statuses; the values add up to at most the number of tasks, and to exactly that number when no task has another status |
| AllTasksView.CountsBound | src/components/tasks/AllTasks.tsx:24-26 | the three counts add up to at most the number of tasks, and to exactly that number when every status is one of the three |
| AllTasksView.CountAppend | src/components/tasks/AllTasks.tsx:24-26 | adding a task raises the count of its own status by one and no other |
| AllTasksView.Render | src/components/tasks/AllTasks.tsx:46-100 | the "no tasks found" message shows exactly when no task passes the filter and search; otherwise exactly `filteredTasks` is listed, an order-preserving subsequence of the tasks |
| AllTasksView.NoCriteriaListsAll | src/components/tasks/AllTasks.tsx:46-100 | with filter `all` and an empty search every task is listed in order, or the message shows when there are none |
| TaskCategoriesView.Categorize | src/components/tasks/TaskCategories.tsx:8-10 | each column holds only its status, and every task with one of the three statuses is in exactly its own column |
| TaskCategoriesView.Disjoint | src/components/tasks/TaskCategories.tsx:8-10 | no task is in two columns |
| TaskCategoriesView.ColumnsKeepOrder | src/components/tasks/TaskCategories.tsx:8-10 | each column keeps the tasks' order |
| TaskCategoriesView.ColumnsMatchChart | src/components/tasks/TaskCategories.tsx:18-28 | the column sizes equal the chart's counts and add up to at most the number of tasks |
| FormPayload.Lookup | src/components/TaskForm.tsx:57-64 | `get` finds nothing exactly when no entry has the name, and otherwise a value appended under it |
| FormPayload.LookupAppend | src/components/TaskForm.tsx:57-77 | appending under a new name makes `get` return the new value and leaves every other name's value alone |
| TaskFormDialog.Init | src/components/TaskForm.tsx:37-45 | each of title, description, priority and status starts from its initial value when that is truthy, otherwise from its default (`''`, `''`, `Moderate`, `Not Started`); the due date and the preview are set exactly when their initial values are truthy, and then to those values; no file and no errors |
| TaskFormDialog.InitEmptyAsMissing | src/components/TaskForm.tsx:37-43 | an empty initial value gives the same form as a missing one, field by field |
| TaskFormDialog.CheckImage | src/components/TaskForm.tsx:66-76 | a file is accepted exactly when it is at most 5 MB and its type starts with `image/`; an oversized file reports the size error before the type is checked |
| TaskFormDialog.ImageBoundary | src/components/TaskForm.tsx:68-76 | exactly 5 MB passes, one byte more fails, and an oversized non-image reports its size |
| TaskFormDialog.ImageChange | src/components/TaskForm.tsx:87-109 | no file changes nothing; a rejected file sets the error and keeps the old image; an accepted file becomes the image |
| TaskFormDialog.Validate | src/components/TaskForm.tsx:47-78 | a blank title is refused first, then a selected file that fails the checks; the payload holds the trimmed title and description, the due date exactly when one is set, priority and status always, and the file exactly when one is selected; each name appears once and no other name appears |
| TaskFormDialog.FieldsFound | src/components/TaskForm.tsx:57-64 | each appended value is what `get` returns under its name; the optional entries are absent when their source is |
| TaskFormDialog.FieldsNames | src/components/TaskForm.tsx:57-77 | the payload appends each of its six names at most once and no other name |
| TaskFormDialog.HandleSubmit | src/components/TaskForm.tsx:47-85 | a payload is passed on exactly when the checks pass; only the two messages change; a blank title sets the title error, a failing file shows its own check message, a rejected submit shows the rejection's message if it has one and the fixed failure text otherwise; a resolved submit leaves the alert clear |
| TaskFormDialog.ImageSlotStaysValid | src/components/TaskForm.tsx:66-100 | the image slot only ever holds a file that passes the checks, so the submit-time image check never fails on it |
| CreateTaskForm.HandleChange | src/components/tasks/TaskForm.tsx:22-30 | exactly the named field takes the new value |
| CreateTaskForm.Validate | src/components/tasks/TaskForm.tsx:38-50 | a blank title is refused before an empty due date; the payload is the trimmed title, the trimmed description and the due date as typed, with no priority or status |
| CreateTaskForm.HandleSubmit | src/components/tasks/TaskForm.tsx:32-70 | something is dispatched exactly when the checks pass; a refusal shows its check message; a fulfilled dispatch resets the form to its defaults and closes it when a close callback exists; a rejection keeps the typed data and shows the error's message, or the fixed failure text when the rejection is not an `Error` |
| CreateTaskForm.ResubmitAfterSuccessRefused | src/components/tasks/TaskForm.tsx:11-59 | after a successful submit the form is back at its defaults, so an immediate resubmit is refused for the missing title |
| CreateTaskForm.ChangeRoundTrip | src/components/tasks/TaskForm.tsx:22-30 | editing a field and setting it back restores the form |
| RegisterForm.HandleChange | src/components/auth/RegisterForm.tsx:31-37 | exactly the named field takes the new value |
| RegisterForm.Validate | src/components/auth/RegisterForm.tsx:47-68 | an unticked terms box is refused before a password mismatch; the payload holds name, email and password, never the confirmation, and the avatar exactly when one was chosen; each name appears once and no other name appears |
| RegisterForm.HandleSubmit | src/components/auth/RegisterForm.tsx:47-80 | a refused form shows its reason and sends nothing; otherwise exactly the validated payload is sent, and the app navigates to the dashboard with the success toast exactly when registration succeeds, else shows the failure toast |
| RegisterForm.AgreementCheckedFirst | src/components/auth/RegisterForm.tsx:49-57 | with mismatched passwords, an unticked box still reports the agreement error |
| LocalStorage.GetItem | src/store/slices/authSlice.ts:6 | `getItem` returns the stored value for a key that is present and null for one that is not |
| LocalStorage.SetItem | src/store/slices/authSlice.ts:20 | after `setItem` the key reads back the value and every other key is unchanged |
| LocalStorage.RemoveItem | src/store/slices/authSlice.ts:25 | after `removeItem` the key reads back null and every other key is unchanged |
| LocalStorage.RemoveAfterSet | src/store/slices/authSlice.ts:13-26 | removing a key erases any earlier write to it |
| AuthSlice.Init | src/store/slices/authSlice.ts:4-7 | the initial state has no user and the persisted `token` as its token |
| AuthSlice.SetCredentials | src/store/slices/authSlice.ts:13-21 | user and token are set and the token is persisted under `token`; no other stored key changes |
| AuthSlice.Logout | src/store/slices/authSlice.ts:22-26 | user and token become null and `token` is removed from storage; no other stored key changes |
| AuthSlice.LogoutIdempotent | src/store/slices/authSlice.ts:22-26 | logging out twice is logging out once |
| AuthSlice.LogoutUndoesCredentials | src/store/slices/authSlice.ts:13-26 | `setCredentials` followed by `logout` gives the same session as `logout` alone, from any start |
| AuthSlice.Reduce | src/store/slices/authSlice.ts:12-27 | after either action the in-memory token is the stored one, a user is set exactly when a token is, and no stored key other than `token` changes |
| AuthSlice.SessionStaysConsistent | src/store/slices/authSlice.ts:4-26 | from the initial state, the in-memory token always equals the stored one, and after any action a user is set exactly when a token is |
| HttpClient.AttachBearer | src/services/api.ts:39-45 | the bearer header `Bearer <token>` is set when the stored token is truthy; otherwise the headers pass unchanged; no other header is touched |
| HttpClient.BearerIffToken | src/utils/api.ts:16-23 | headers without `Authorization` get one exactly when a truthy token is stored |
| HttpClient.ErrorMessage | src/services/api.ts:51 | the message is the server message if truthy, else the error's own message if truthy, else `An error occurred`, and is never empty |
| HttpClient.ErrorMessageSource | src/utils/api.ts:39 | the message is always one the error carries or the generic one |
| ServicesApi.RequestHeaders | src/services/api.ts:31-45 | every request has JSON content type, and a bearer header exactly when a truthy token is stored |
| ServicesApi.HandleReply | src/services/api.ts:48-55 | a response passes through unchanged; an error is rejected with its normalised, non-empty message |
| ServicesApi.Logout | src/services/api.ts:86-88 | `logout` removes the stored token and nothing else |
| ServicesApi.NoBearerAfterLogout | src/services/api.ts:39-45 | after logout, requests carry no bearer header |
| UtilsApi.CallHeaders | src/utils/api.ts:55-82 | create and update calls send no Content-Type and every other call sends JSON; every call sends `Accept: application/json` and a bearer header exactly when a truthy token is stored; no other header is sent |
| UtilsApi.HandleReply | src/utils/api.ts:30-42 | a response passes through; a 401 removes `token` and `user` and redirects to `/login`; any other error leaves storage alone without redirect; every error carries its normalised, non-empty message |
| UtilsApi.NoBearerAfterUnauthorized | src/utils/api.ts:33-38 | after a 401 the next request of any kind carries no bearer header |

## Left out

- Rendering, styling and colour maps: presentational only.
- Routing, bootstrapping, the dashboard pages, the login and settings
  screens and the dashboard task form: they orchestrate calls or pass
  values straight through.
- Network calls, promise ordering and timing: a request's outcome is an
  input (`Reply`, `Settled`, `registered`). Logging and toasts other than
  the messages chosen are left out.
- The `createTask`, `getTasks` and `register` thunks the components
  dispatch are not defined in the slices shown, so how they settle is a
  parameter.
- Date handling (`new Date`, `date-fns` `format`, `datetime-local`): the
  due date is an opaque string, already in its submitted form.
- File reading and previews (`FileReader`, `URL.createObjectURL`): a file
  is its name, size and MIME type. The sign-up form's avatar preview is not
  modelled.
- Unicode: `toLowerCase` and `trim` are modelled on ASCII letters and ASCII
  whitespace only.
- Sorting: `sortBy` is stored but never applied, so no order is modelled.
- `withCredentials`, the base URLs and the body shapes of the auth calls:
  transport configuration.
- `TaskSlice.SetFiltersReducer`: an explicitly `undefined` key in the patch
  would overwrite the old value with `undefined`. The model treats it as
  absent, because the filter values are strings.
- `HttpClient.ErrorMessage`: a server `message` that is not a string is
  not modelled, because the model's body type holds only strings.
- `TaskFormDialog.HandleSubmit`: an exception thrown while building the
  payload (an invalid date) is not modelled, because date formatting is
  left out.
- The loading flags of the forms are not modelled. They only disable
  inputs while a request is outstanding.
