/** The create form of src/components/tasks/TaskForm.tsx: field edits, the
    two required-field checks, the payload it dispatches and the reset that
    follows a successful dispatch. */
module CreateTaskForm {
  import opened Wrappers
  import Text

  const TitleRequired: string := "Title is required"
  const DueDateRequired: string := "Due date is required"
  const CreateFailed: string := "Failed to create task. Please try again."

  /** The form's controlled fields. */
  datatype FormData = FormData(title: string, description: string, dueDate: string, priority: string, status: string)

  /** The fields' `name` attributes. */
  datatype Field = TitleField | DescriptionField | DueDateField | PriorityField | StatusField

  /** The values the form starts from and returns to after a success. */
  const Defaults: FormData := FormData("", "", "", "medium", "pending")

  /** `formData[name]`. */
  function Get(d: FormData, field: Field): string {
    match field
    case TitleField => d.title
    case DescriptionField => d.description
    case DueDateField => d.dueDate
    case PriorityField => d.priority
    case StatusField => d.status
  }

  /** `handleChange`: `{ ...prev, [name]: value }`. */
  function HandleChange(d: FormData, field: Field, value: string): (r: FormData)
    ensures Get(r, field) == value
    ensures forall f :: f != field ==> Get(r, f) == Get(d, f)
  {
    match field
    case TitleField => d.(title := value)
    case DescriptionField => d.(description := value)
    case DueDateField => d.(dueDate := value)
    case PriorityField => d.(priority := value)
    case StatusField => d.(status := value)
  }

  /** What is dispatched to `createTask`: priority and status are not sent. */
  datatype CreatePayload = CreatePayload(title: string, description: string, dueDate: string)

  /** The checks of `handleSubmit`, title first: a blank title, then an empty
      due date, is refused; otherwise the trimmed title and description and
      the due date as typed are sent. */
  function Validate(d: FormData): (r: Result<CreatePayload, string>)
    ensures r.Failure? <==> Text.IsBlank(d.title) || d.dueDate == ""
    ensures Text.IsBlank(d.title) ==> r == Failure(TitleRequired)
    ensures !Text.IsBlank(d.title) && d.dueDate == "" ==> r == Failure(DueDateRequired)
    ensures r.Success? ==> r.value.title == Text.Trim(d.title) && r.value.title != ""
    ensures r.Success? ==> r.value.description == Text.Trim(d.description)
    ensures r.Success? ==> r.value.dueDate == d.dueDate
  {
    var title := Text.Trim(d.title);
    if title == "" then Failure(TitleRequired)
    else if d.dueDate == "" then Failure(DueDateRequired)
    else Success(CreatePayload(title, Text.Trim(d.description), d.dueDate))
  }

  /** How the dispatched `createTask(...).unwrap()` settles. */
  datatype Settled =
    | Fulfilled
    | RejectedWithError(message: string)  // rejected with an `Error` instance
    | RejectedOther                       // rejected with anything else

  /** The form after `handleSubmit`. */
  datatype Step = Step(data: FormData, error: Option<string>, dispatched: Option<CreatePayload>, closed: bool)

  /** `handleSubmit`: something is dispatched exactly when the checks pass;
      only a fulfilled dispatch resets the form to its defaults and closes
      it (when a close callback is given); every failure keeps what was
      typed and reports why. */
  function HandleSubmit(d: FormData, settled: Settled, hasOnClose: bool): (r: Step)
    ensures r.dispatched.Some? <==> Validate(d).Success?
    ensures r.dispatched.Some? ==> r.dispatched.value == Validate(d).value
    ensures Validate(d).Failure? ==> r.data == d && r.error == Some(Validate(d).error) && !r.closed
    ensures Validate(d).Success? && settled.Fulfilled? ==> r.data == Defaults && r.error.None? && r.closed == hasOnClose
    ensures Validate(d).Success? && !settled.Fulfilled? ==> r.data == d && r.error.Some? && !r.closed
    ensures Validate(d).Success? && settled.RejectedWithError? ==> r.error == Some(settled.message)
    ensures Validate(d).Success? && settled.RejectedOther? ==> r.error == Some(CreateFailed)
  {
    match Validate(d)
    case Failure(msg) => Step(d, Some(msg), None, false)
    case Success(p) =>
      match settled
      case Fulfilled => Step(Defaults, None, Some(p), hasOnClose)
      case RejectedWithError(m) => Step(d, Some(m), Some(p), false)
      case RejectedOther => Step(d, Some(CreateFailed), Some(p), false)
  }

  /** After a successful submit the form is back at its defaults, so
      submitting again at once is refused for the missing title and sends
      nothing. */
  lemma ResubmitAfterSuccessRefused(d: FormData, again: Settled, hasOnClose: bool)
    ensures var r := HandleSubmit(d, Fulfilled, hasOnClose);
      var r2 := HandleSubmit(r.data, again, hasOnClose);
      r.dispatched.Some? ==> r2.dispatched.None? && r2.error == Some(TitleRequired)
  {
    assert Text.IsBlank(Defaults.title);
  }

  /** Editing a field and then setting it back restores the form. */
  lemma ChangeRoundTrip(d: FormData, field: Field, value: string)
    ensures HandleChange(HandleChange(d, field, value), field, Get(d, field)) == d
  {
  }
}
