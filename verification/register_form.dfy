/** The sign-up form of src/components/auth/RegisterForm.tsx: field edits,
    the two checks before registering, and the multipart payload. */
module RegisterForm {
  import opened Wrappers
  import opened FormPayload

  const MustAgree: string := "You must agree to all terms"
  const PasswordMismatch: string := "Passwords do not match"
  const RegisterFailed: string := "Registration failed. Please try again."
  const RegisterSucceeded: string := "Registration successful!"

  /** The form's text fields. */
  datatype RegisterData = RegisterData(name: string, email: string, password: string, confirmPassword: string)

  /** The inputs' `name` attributes. */
  datatype Field = NameField | EmailField | PasswordField | ConfirmPasswordField

  /** `formData[name]`. */
  function Get(d: RegisterData, field: Field): string {
    match field
    case NameField => d.name
    case EmailField => d.email
    case PasswordField => d.password
    case ConfirmPasswordField => d.confirmPassword
  }

  /** `handleChange`: exactly the named field takes the new value. */
  function HandleChange(d: RegisterData, field: Field, value: string): (r: RegisterData)
    ensures Get(r, field) == value
    ensures forall f :: f != field ==> Get(r, f) == Get(d, f)
  {
    match field
    case NameField => d.(name := value)
    case EmailField => d.(email := value)
    case PasswordField => d.(password := value)
    case ConfirmPasswordField => d.(confirmPassword := value)
  }

  /** The checks of `handleSubmit`, agreement first, then the password
      confirmation; when both pass, the payload carries name, email,
      password and the avatar if one was chosen, never the confirmation. */
  function Validate(d: RegisterData, agree: bool, avatar: Option<File>): (r: Result<FormData, string>)
    ensures !agree ==> r == Failure(MustAgree)
    ensures agree && d.password != d.confirmPassword ==> r == Failure(PasswordMismatch)
    ensures r.Success? <==> agree && d.password == d.confirmPassword
    ensures r.Success? ==> Lookup(r.value, "name") == Some(Str(d.name))
    ensures r.Success? ==> Lookup(r.value, "email") == Some(Str(d.email))
    ensures r.Success? ==> Lookup(r.value, "password") == Some(Str(d.password))
    ensures r.Success? ==> Lookup(r.value, "confirmPassword").None?
    ensures r.Success? ==> DistinctKeys(r.value) && KeysWithin(r.value, {"name", "email", "password", "avatar"})
    ensures r.Success? ==> (Lookup(r.value, "avatar").Some? <==> avatar.Some?)
    ensures r.Success? && avatar.Some? ==> Lookup(r.value, "avatar") == Some(Blob(avatar.value))
  {
    if !agree then Failure(MustAgree)
    else if d.password != d.confirmPassword then Failure(PasswordMismatch)
    else
      var fd: FormData := [("name", Str(d.name)), ("email", Str(d.email)), ("password", Str(d.password))]
        + (if avatar.Some? then [("avatar", Blob(avatar.value))] else []);
      assert fd[0].0 == "name" && fd[1].0 == "email" && fd[2].0 == "password";
      assert avatar.Some? ==> fd[3] == ("avatar", Blob(avatar.value));
      assert forall i :: 0 <= i < |fd| ==> fd[i].0 != "confirmPassword";
      assert avatar.None? ==> forall i :: 0 <= i < |fd| ==> fd[i].0 != "avatar";
      Success(fd)
  }

  /** The toast and the navigation that follow a submit. */
  datatype Effects = Effects(toast: string, isError: bool, sent: Option<FormData>, navigateTo: Option<string>)

  /** `handleSubmit`: a refused form shows its reason and sends nothing; a
      sent one leads to the dashboard exactly when registration succeeds. */
  function HandleSubmit(d: RegisterData, agree: bool, avatar: Option<File>, registered: bool): (e: Effects)
    ensures e.sent.Some? <==> Validate(d, agree, avatar).Success?
    ensures e.sent.Some? ==> e.sent.value == Validate(d, agree, avatar).value
    ensures e.sent.None? ==> e.isError && e.toast == Validate(d, agree, avatar).error && e.navigateTo.None?
    ensures e.navigateTo.Some? <==> e.sent.Some? && registered
    ensures e.navigateTo.Some? ==> e.navigateTo.value == "/dashboard" && !e.isError && e.toast == RegisterSucceeded
    ensures e.sent.Some? && !registered ==> e.isError && e.toast == RegisterFailed
  {
    match Validate(d, agree, avatar)
    case Failure(msg) => Effects(msg, true, None, None)
    case Success(fd) =>
      if registered then Effects(RegisterSucceeded, false, Some(fd), Some("/dashboard"))
      else Effects(RegisterFailed, true, Some(fd), None)
  }

  /** Whatever is typed, an unticked terms box is reported before any
      password problem. */
  lemma AgreementCheckedFirst(d: RegisterData, avatar: Option<File>)
    requires d.password != d.confirmPassword
    ensures Validate(d, false, avatar) == Failure(MustAgree)
    ensures Validate(d, true, avatar) == Failure(PasswordMismatch)
  {
  }
}
