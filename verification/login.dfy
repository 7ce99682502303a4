/**
 The local demo login (src/Login.jsx): credentials are checked against a
 hard-coded table; a match stores the account's public fields under the
 `userData` key and notifies the caller, a miss shows an error.
 */
module Login {
  import opened Wrappers

  datatype Account = Account(id: int, username: string, password: string, email: string)

  const Users: seq<Account> := [
    Account(1, "demoUser", "demo123", "demo@example.com"),
    Account(2, "admin", "admin123", "admin@example.com")
  ]

  /** The session record: an account without its password. */
  datatype UserData = UserData(id: int, username: string, email: string)

  function PublicPart(a: Account): UserData {
    UserData(a.id, a.username, a.email)
  }

  datatype Form = Form(username: string, password: string)

  datatype FormField = UsernameField | PasswordField

  const InvalidCredentials: string := "Invalid username or password"

  /** The screen's state together with the `userData` storage slot it writes. */
  datatype LoginState = LoginState(form: Form, error: string, stored: Option<UserData>)

  /** What a submit yields: the new state and the record passed to `onLogin`, if any. */
  datatype Submitted = Submitted(state: LoginState, loggedIn: Option<UserData>)

  /** `handleChange`: only the named form field takes the typed value. */
  function HandleChange(s: LoginState, f: FormField, value: string): (r: LoginState)
    ensures f == UsernameField ==> r.form.username == value && r.form.password == s.form.password
    ensures f == PasswordField ==> r.form.password == value && r.form.username == s.form.username
    ensures r.error == s.error && r.stored == s.stored
  {
    match f
    case UsernameField => s.(form := s.form.(username := value))
    case PasswordField => s.(form := s.form.(password := value))
  }

  predicate Matches(a: Account, f: Form) {
    a.username == f.username && a.password == f.password
  }

  /** `users.find(...)`: the position of the first account matching both fields. */
  function FindUser(users: seq<Account>, f: Form): (r: Option<nat>)
    ensures r.Some? ==> r.value < |users| && Matches(users[r.value], f)
    ensures r.Some? ==> forall j :: 0 <= j < r.value ==> !Matches(users[j], f)
    ensures r.None? <==> forall i :: 0 <= i < |users| ==> !Matches(users[i], f)
  {
    if users == [] then None
    else if Matches(users[0], f) then Some(0)
    else match FindUser(users[1..], f)
      case Some(i) => Some(i + 1)
      case None => None
  }

  /**
   `handleSubmit`: succeeds exactly when some table entry matches both
   username and password; then the first match's id, username and email are
   stored and passed on and the error is empty. Otherwise the error message
   is set and the stored session is left as it was.
   */
  function Submit(s: LoginState): (r: Submitted)
    ensures r.loggedIn.Some? <==> exists i :: 0 <= i < |Users| && Matches(Users[i], s.form)
    ensures r.loggedIn.Some? ==>
              exists i :: 0 <= i < |Users| && Matches(Users[i], s.form)
                       && (forall j :: 0 <= j < i ==> !Matches(Users[j], s.form))
                       && r.loggedIn == Some(PublicPart(Users[i]))
    ensures r.loggedIn.Some? ==> r.state.stored == r.loggedIn && r.state.error == ""
    ensures r.loggedIn.None? ==> r.state.error == InvalidCredentials && r.state.stored == s.stored
    ensures r.state.form == s.form
  {
    var cleared := s.(error := "");
    match FindUser(Users, s.form)
    case Some(i) =>
      var data := PublicPart(Users[i]);
      Submitted(cleared.(stored := Some(data)), Some(data))
    case None =>
      Submitted(cleared.(error := InvalidCredentials), None)
  }

  /**
   Pressing Login: both inputs are `required`, so while either is empty the
   browser blocks the submit event and `handleSubmit` never runs; the earlier
   error message and session stay. Since no table entry has an empty field,
   the login outcome is the handler's in every case; only the error differs.
   */
  function SubmitForm(s: LoginState): (r: Submitted)
    ensures s.form.username == "" || s.form.password == "" ==> r == Submitted(s, None)
    ensures s.form.username != "" && s.form.password != "" ==> r == Submit(s)
    ensures r.loggedIn.Some? <==> exists i :: 0 <= i < |Users| && Matches(Users[i], s.form)
  {
    if s.form.username == "" || s.form.password == "" then Submitted(s, None)
    else Submit(s)
  }

  /** A blocked submit keeps the previous error, where the handler itself would set the invalid-credentials message. */
  lemma BlockedSubmitKeepsError(s: LoginState)
    requires s.form.password == "" && s.error == ""
    ensures SubmitForm(s).state.error == ""
    ensures Submit(s).state.error == InvalidCredentials
  {
  }

  /** The demo account logs in as user 1. */
  lemma DemoUserLogsIn(s: LoginState)
    requires s.form == Form("demoUser", "demo123")
    ensures Submit(s).loggedIn == Some(UserData(1, "demoUser", "demo@example.com"))
  {
    assert Matches(Users[0], s.form);
  }

  /** A right username with another account's password is refused. */
  lemma MixedCredentialsRefused(s: LoginState)
    requires s.form == Form("admin", "demo123")
    ensures Submit(s).loggedIn.None? && Submit(s).state.error == InvalidCredentials
  {
    assert !Matches(Users[0], s.form) && !Matches(Users[1], s.form);
  }

  /** The error starts empty on every submit: after any attempt, a retry with good credentials ends with no error. */
  lemma ErrorResetOnEverySubmit(s: LoginState)
    ensures Submit(s).state.error == "" || Submit(s).state.error == InvalidCredentials
    ensures Submit(Submit(s).state.(form := Form("admin", "admin123"))).state.error == ""
  {
    var t := Submit(s).state.(form := Form("admin", "admin123"));
    assert Matches(Users[1], t.form);
  }
}
