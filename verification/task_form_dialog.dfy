/** The dialog form of src/components/TaskForm.tsx: its initial values, the
    image checks on selection and on submit, and the multipart payload it
    hands to its `onSubmit` callback. */
module TaskFormDialog {
  import opened Wrappers
  import opened FormPayload
  import Text

  /** The largest accepted image, 5 MB. */
  const MaxImageBytes: nat := 5 * 1024 * 1024

  const TitleRequired: string := "Title is required"
  const ImageTooLarge: string := "Image size should be less than 5MB"
  const NotAnImage: string := "Please upload an image file"
  const SubmitFailed: string := "Failed to create task. Please try again."

  /** The optional `initial` prop. */
  datatype Initial = Initial(
    title: Option<string>,
    description: Option<string>,
    dueDate: Option<string>,
    priority: Option<string>,
    status: Option<string>,
    image: Option<string>)

  /** The component state. The due date is kept as the `yyyy-MM-dd` text
      the payload carries. */
  datatype Form = Form(
    title: string,
    description: string,
    dueDate: Option<string>,
    priority: string,
    status: string,
    image: Option<File>,
    imagePreview: Option<string>,
    titleError: Option<string>,
    error: Option<string>)

  /** The state on first render: each field takes its initial value when
      that is truthy and its default otherwise; no file, no errors. */
  function Init(i: Initial): (f: Form)
    ensures Text.Truthy(i.title) ==> f.title == i.title.value
    ensures !Text.Truthy(i.title) ==> f.title == ""
    ensures Text.Truthy(i.description) ==> f.description == i.description.value
    ensures !Text.Truthy(i.description) ==> f.description == ""
    ensures Text.Truthy(i.priority) ==> f.priority == i.priority.value
    ensures !Text.Truthy(i.priority) ==> f.priority == "Moderate"
    ensures Text.Truthy(i.status) ==> f.status == i.status.value
    ensures !Text.Truthy(i.status) ==> f.status == "Not Started"
    ensures f.dueDate.Some? <==> Text.Truthy(i.dueDate)
    ensures f.dueDate.Some? ==> f.dueDate.value == i.dueDate.value
    ensures f.imagePreview.Some? <==> Text.Truthy(i.image)
    ensures f.imagePreview.Some? ==> f.imagePreview.value == i.image.value
    ensures f.image.None? && f.titleError.None? && f.error.None?
  {
    Form(
      Text.Or(i.title, ""),
      Text.Or(i.description, ""),
      if Text.Truthy(i.dueDate) then Some(i.dueDate.value) else None,
      Text.Or(i.priority, "Moderate"),
      Text.Or(i.status, "Not Started"),
      None,
      if Text.Truthy(i.image) then Some(i.image.value) else None,
      None,
      None)
  }

  /** An empty initial value counts as a missing one: the form starts the
      same whether a field is absent from `initial` or set to `''`. */
  lemma InitEmptyAsMissing(i: Initial)
    ensures Init(i.(title := Some(""))) == Init(i.(title := None))
    ensures Init(i.(description := Some(""))) == Init(i.(description := None))
    ensures Init(i.(dueDate := Some(""))) == Init(i.(dueDate := None))
    ensures Init(i.(priority := Some(""))) == Init(i.(priority := None))
    ensures Init(i.(status := Some(""))) == Init(i.(status := None))
    ensures Init(i.(image := Some(""))) == Init(i.(image := None))
  {
  }

  /** The two checks applied to a file, size first: `None` when the file is
      accepted, otherwise the message to show. */
  function CheckImage(file: File): (r: Option<string>)
    ensures r.None? <==> file.size <= MaxImageBytes && Text.StartsWith(file.mimeType, "image/")
    ensures file.size > MaxImageBytes ==> r == Some(ImageTooLarge)
    ensures file.size <= MaxImageBytes && !Text.StartsWith(file.mimeType, "image/") ==> r == Some(NotAnImage)
  {
    if file.size > MaxImageBytes then Some(ImageTooLarge)
    else if !Text.StartsWith(file.mimeType, "image/") then Some(NotAnImage)
    else None
  }

  /** The size limit is inclusive: exactly 5 MB passes, one byte more does
      not, and an oversized file is reported for its size even when it is
      not an image. */
  lemma ImageBoundary(name: string)
    ensures MaxImageBytes == 5 * 1024 * 1024
    ensures CheckImage(File(name, MaxImageBytes, "image/png")).None?
    ensures CheckImage(File(name, MaxImageBytes + 1, "image/png")) == Some(ImageTooLarge)
    ensures CheckImage(File(name, MaxImageBytes + 1, "text/plain")) == Some(ImageTooLarge)
    ensures CheckImage(File(name, 0, "text/plain")) == Some(NotAnImage)
  {
    assert "image/png"[..6] == "image/";
    assert "text/plain"[..6] != "image/" by {
      assert "text/plain"[0] != "image/"[0];
    }
  }

  /** `handleImageChange`: no file leaves the form alone; a rejected file
      sets the error and keeps the previous image; an accepted file is
      taken (its preview is produced later and is not modelled). */
  function ImageChange(f: Form, file: Option<File>): (r: Form)
    ensures file.None? ==> r == f
    ensures file.Some? && CheckImage(file.value).Some? ==>
      r == f.(error := CheckImage(file.value))
    ensures file.Some? && CheckImage(file.value).None? ==> r == f.(image := file)
  {
    match file
    case None => f
    case Some(x) =>
      match CheckImage(x)
      case Some(msg) => f.(error := Some(msg))
      case None => f.(image := Some(x))
  }

  /** What `handleSubmit` decides before calling `onSubmit`. */
  datatype Submission =
    | MissingTitle               // shown under the title field
    | BadImage(message: string)  // shown in the alert
    | Payload(data: FormData)    // handed to onSubmit

  /** The checks of `handleSubmit` in their order (title, then the selected
      file's size, then its type) and the payload built when they pass:
      trimmed title and description, the due date only when one is set,
      priority and status always, the file only when one is selected. */
  function Validate(f: Form): (s: Submission)
    ensures s.MissingTitle? <==> Text.IsBlank(f.title)
    ensures s.BadImage? <==> !Text.IsBlank(f.title) && f.image.Some? && CheckImage(f.image.value).Some?
    ensures s.BadImage? ==> Some(s.message) == CheckImage(f.image.value)
    ensures s.Payload? ==> Lookup(s.data, "title") == Some(Str(Text.Trim(f.title)))
    ensures s.Payload? ==> Text.Trim(f.title) != ""
    ensures s.Payload? ==> Lookup(s.data, "description") == Some(Str(Text.Trim(f.description)))
    ensures s.Payload? ==> Lookup(s.data, "dueDate") == (if f.dueDate.Some? then Some(Str(f.dueDate.value)) else None)
    ensures s.Payload? ==> Lookup(s.data, "priority") == Some(Str(f.priority))
    ensures s.Payload? ==> Lookup(s.data, "status") == Some(Str(f.status))
    ensures s.Payload? ==> Lookup(s.data, "image") == (if f.image.Some? then Some(Blob(f.image.value)) else None)
    ensures s.Payload? ==> DistinctKeys(s.data) && KeysWithin(s.data, PayloadNames)
  {
    var title := Text.Trim(f.title);
    if title == "" then MissingTitle
    else if f.image.Some? && CheckImage(f.image.value).Some? then BadImage(CheckImage(f.image.value).value)
    else
      FieldsFound(title, Text.Trim(f.description), f.dueDate, f.priority, f.status, f.image);
      FieldsNames(title, Text.Trim(f.description), f.dueDate, f.priority, f.status, f.image);
      Payload(Fields(title, Text.Trim(f.description), f.dueDate, f.priority, f.status, f.image))
  }

  /** The entries `handleSubmit` appends, in order: title, description,
      the due date if set, priority, status, the file if selected. */
  function Fields(title: string, description: string, dueDate: Option<string>,
                  priority: string, status: string, image: Option<File>): FormData
  {
    var due: FormData := if dueDate.Some? then [("dueDate", Str(dueDate.value))] else [];
    var file: FormData := if image.Some? then [("image", Blob(image.value))] else [];
    [("title", Str(title)), ("description", Str(description))]
      + due + [("priority", Str(priority)), ("status", Str(status))] + file
  }

  /** The names `handleSubmit` appends under. */
  const PayloadNames: set<string> := {"title", "description", "dueDate", "priority", "status", "image"}

  /** Each name is appended at most once, and only the six names are used. */
  lemma FieldsNames(title: string, description: string, dueDate: Option<string>,
                    priority: string, status: string, image: Option<File>)
    ensures var fd := Fields(title, description, dueDate, priority, status, image);
      DistinctKeys(fd) && KeysWithin(fd, PayloadNames)
  {
    var fd := Fields(title, description, dueDate, priority, status, image);
    var names := seq(|fd|, i requires 0 <= i < |fd| => fd[i].0);
    if dueDate.Some? && image.Some? {
      assert names == ["title", "description", "dueDate", "priority", "status", "image"];
    } else if dueDate.Some? {
      assert names == ["title", "description", "dueDate", "priority", "status"];
    } else if image.Some? {
      assert names == ["title", "description", "priority", "status", "image"];
    } else {
      assert names == ["title", "description", "priority", "status"];
    }
  }

  /** `get` on the payload looks through its four parts in order. */
  lemma FieldsLookup(title: string, description: string, dueDate: Option<string>,
                     priority: string, status: string, image: Option<File>, key: string)
    ensures Lookup(Fields(title, description, dueDate, priority, status, image), key) ==
      var head := Lookup([("title", Str(title)), ("description", Str(description))], key);
      var due := Lookup(if dueDate.Some? then [("dueDate", Str(dueDate.value))] else [], key);
      var tail := Lookup([("priority", Str(priority)), ("status", Str(status))], key);
      var file := Lookup(if image.Some? then [("image", Blob(image.value))] else [], key);
      if head.Some? then head else if due.Some? then due else if tail.Some? then tail else file
  {
    var due: FormData := if dueDate.Some? then [("dueDate", Str(dueDate.value))] else [];
    var file: FormData := if image.Some? then [("image", Blob(image.value))] else [];
    var head: FormData := [("title", Str(title)), ("description", Str(description))];
    var tail: FormData := [("priority", Str(priority)), ("status", Str(status))];
    LookupConcat(head + due + tail, file, key);
    LookupConcat(head + due, tail, key);
    LookupConcat(head, due, key);
  }

  /** Each value appended is what `get` returns for its name; the optional
      entries are absent when their source is. */
  lemma FieldsFound(title: string, description: string, dueDate: Option<string>,
                    priority: string, status: string, image: Option<File>)
    ensures var fd := Fields(title, description, dueDate, priority, status, image);
      && Lookup(fd, "title") == Some(Str(title))
      && Lookup(fd, "description") == Some(Str(description))
      && Lookup(fd, "dueDate") == (if dueDate.Some? then Some(Str(dueDate.value)) else None)
      && Lookup(fd, "priority") == Some(Str(priority))
      && Lookup(fd, "status") == Some(Str(status))
      && Lookup(fd, "image") == (if image.Some? then Some(Blob(image.value)) else None)
  {
    FieldsAt(title, description, dueDate, priority, status, image, "title");
    FieldsAt(title, description, dueDate, priority, status, image, "description");
    FieldsAt(title, description, dueDate, priority, status, image, "dueDate");
    FieldsAt(title, description, dueDate, priority, status, image, "priority");
    FieldsAt(title, description, dueDate, priority, status, image, "status");
    FieldsAt(title, description, dueDate, priority, status, image, "image");
  }

  /** `get` on the payload for one name. */
  lemma FieldsAt(title: string, description: string, dueDate: Option<string>,
                 priority: string, status: string, image: Option<File>, key: string)
    ensures Lookup(Fields(title, description, dueDate, priority, status, image), key) ==
      if key == "title" then Some(Str(title))
      else if key == "description" then Some(Str(description))
      else if key == "dueDate" && dueDate.Some? then Some(Str(dueDate.value))
      else if key == "priority" then Some(Str(priority))
      else if key == "status" then Some(Str(status))
      else if key == "image" && image.Some? then Some(Blob(image.value))
      else None
  {
    FieldsLookup(title, description, dueDate, priority, status, image, key);
    LookupSmall("title", Str(title), "description", Str(description), key);
    LookupSmall("priority", Str(priority), "status", Str(status), key);
    if dueDate.Some? {
      LookupSmall("dueDate", Str(dueDate.value), "", Str(""), key);
    }
    if image.Some? {
      LookupSmall("image", Blob(image.value), "", Str(""), key);
    }
  }

  /** How the `onSubmit` promise settles. */
  datatype Settled = Resolved | Rejected(message: Option<string>)

  /** The state after `handleSubmit`, and the payload passed on, if any. */
  datatype Step = Step(form: Form, sent: Option<FormData>)

  /** `handleSubmit`: the alert is cleared first; a blank title sets the
      title error, a rejected file or a rejected `onSubmit` the alert (the
      rejection's message when it has one, a fixed text otherwise). Only
      the two messages change; whenever the alert is set it says something. */
  function HandleSubmit(f: Form, settled: Settled): (r: Step)
    ensures r.form == f.(titleError := r.form.titleError, error := r.form.error)
    ensures r.sent.Some? <==> Validate(f).Payload?
    ensures r.sent.Some? ==> r.sent.value == Validate(f).data
    ensures Validate(f).MissingTitle? ==> r.form.titleError == Some(TitleRequired) && r.form.error.None?
    ensures !Validate(f).MissingTitle? ==> r.form.titleError == f.titleError
    ensures Validate(f).BadImage? ==> r.form.error == Some(Validate(f).message)
    ensures Validate(f).Payload? && settled.Rejected? ==> r.form.error == Some(Text.Or(settled.message, SubmitFailed))
    ensures r.form.error.None? <==> Validate(f).MissingTitle? || (Validate(f).Payload? && settled.Resolved?)
    ensures r.form.error.Some? ==> r.form.error.value != ""
  {
    match Validate(f)
    case MissingTitle => Step(f.(titleError := Some(TitleRequired), error := None), None)
    case BadImage(msg) => Step(f.(error := Some(msg)), None)
    case Payload(data) =>
      match settled
      case Resolved => Step(f.(error := None), Some(data))
      case Rejected(m) => Step(f.(error := Some(Text.Or(m, SubmitFailed))), Some(data))
  }

  /** The form holds no file that would fail the checks. */
  predicate ImageAccepted(f: Form) {
    f.image.Some? ==> CheckImage(f.image.value).None?
  }

  /** The image slot only ever holds acceptable files: the initial state
      has none, a file change keeps it so, and a form in that state never
      fails submission on its image, so the submit-time checks repeat the
      selection-time ones. */
  lemma ImageSlotStaysValid(i: Initial, f: Form, file: Option<File>)
    ensures ImageAccepted(Init(i))
    ensures ImageAccepted(f) ==> ImageAccepted(ImageChange(f, file))
    ensures ImageAccepted(f) ==> !Validate(f).BadImage?
  {
  }
}
