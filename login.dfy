/**
 * The sign-in page: reading the registered users (with a fallback to the
 * single current user), the case-insensitive lookup by e-mail, the password
 * check, the empty-field guard and the remember-me storage rule. The remote
 * sign-in call is a parameter: only its response is modelled.
 */
module Login {
  import opened Wrappers
  import opened Ascii
  import opened Storage
  import Register

  /**
   * This page's `getAllUsers`: the stored users list if present; otherwise
   * the stored current user as a one-element list; otherwise nothing. A
   * stored text that does not parse gives the empty list.
   */
  function AllUsers(entries: map<string, Stored>): (r: seq<User>)
    ensures UsersKey in entries && entries[UsersKey].UsersJson? ==> r == entries[UsersKey].users
    ensures !Truthy(if UsersKey in entries then Some(entries[UsersKey]) else None)
         && CurrentUserKey in entries && entries[CurrentUserKey].UserJson?
         ==> r == [entries[CurrentUserKey].user]
    ensures r != [] ==> (
      || (UsersKey in entries && entries[UsersKey] == UsersJson(r))
      || (CurrentUserKey in entries && entries[CurrentUserKey] == UserJson(r[0]) && |r| == 1))
    ensures UsersKey in entries && entries[UsersKey] == Garbled ==> r == []
  {
    if UsersKey in entries && Truthy(Some(entries[UsersKey])) then
      match entries[UsersKey]
      case UsersJson(users) => users
      case _ => []
    else if CurrentUserKey in entries && Truthy(Some(entries[CurrentUserKey])) then
      match entries[CurrentUserKey]
      case UserJson(user) => [user]
      case _ => []
    else []
  }

  /** Position `i` holds the first user whose e-mail equals `email`, ignoring case. */
  ghost predicate FirstMatchAt(users: seq<User>, email: string, i: int)
  {
    && 0 <= i < |users|
    && EqualsIgnoreCase(users[i].email, email)
    && forall j :: 0 <= j < i ==> !EqualsIgnoreCase(users[j].email, email)
  }

  /** `users.find(user => user.email.toLowerCase() === email.toLowerCase())`. */
  function FirstWithEmail(users: seq<User>, email: string): (r: Option<User>)
    ensures r.None? <==> forall i :: 0 <= i < |users| ==> !EqualsIgnoreCase(users[i].email, email)
    ensures r.Some? ==> exists i :: FirstMatchAt(users, email, i) && users[i] == r.value
  {
    if users == [] then None
    else if EqualsIgnoreCase(users[0].email, email) then Some(users[0])
    else
      var r := FirstWithEmail(users[1..], email);
      if r.Some? then
        ghost var i :| FirstMatchAt(users[1..], email, i) && users[1..][i] == r.value;
        assert FirstMatchAt(users, email, i + 1);
        r
      else
        r
  }

  /** `findUserByEmail`: the first stored user with this e-mail, ignoring case. */
  function FindUserByEmail(entries: map<string, Stored>, email: string): (r: Option<User>)
    ensures r.Some? ==> r.value in AllUsers(entries) && EqualsIgnoreCase(r.value.email, email)
    ensures r.None? ==> forall u :: u in AllUsers(entries) ==> !EqualsIgnoreCase(u.email, email)
  {
    FirstWithEmail(AllUsers(entries), email)
  }

  /**
   * `validatePassword`: the password is the user's own or their demo
   * password; a user without a demo password has exactly one.
   */
  predicate ValidatePassword(user: User, password: string)
    ensures user.demoPassword.None? ==> (ValidatePassword(user, password) <==> password == user.password)
    ensures password == user.password ==> ValidatePassword(user, password)
  {
    user.password == password || user.demoPassword == Some(password)
  }

  // ---------------------------------------------------------------------
  // Signing in

  /** What the sign-in endpoint answers; `Unreachable` stands for a thrown request. */
  datatype Response =
    | Unreachable(reason: string)
    | Reply(ok: bool, message: string, token: string, user: User, name: string)

  datatype LoginOutcome =
    | Rejected(message: string)
    | Failed(message: string)
    | Welcome(message: string)

  /**
   * The remember-me step: with the box ticked both `rememberMe` and
   * `rememberedEmail` are written; otherwise both are removed. No other key
   * is touched.
   */
  function RememberStep(entries: map<string, Stored>, rememberMe: bool, email: string)
    : (r: map<string, Stored>)
    ensures forall k :: k != RememberMeKey && k != RememberedEmailKey ==>
      (k in r <==> k in entries) && (k in r ==> r[k] == entries[k])
    ensures rememberMe ==>
      RememberMeKey in r && r[RememberMeKey] == Text("true")
      && RememberedEmailKey in r && r[RememberedEmailKey] == Text(email)
    ensures !rememberMe ==> RememberMeKey !in r && RememberedEmailKey !in r
  {
    if rememberMe then entries[RememberMeKey := Text("true")][RememberedEmailKey := Text(email)]
    else entries - {RememberMeKey, RememberedEmailKey}
  }

  /** The mount effect: a non-empty remembered e-mail pre-fills the form. */
  function RememberedEmail(entries: map<string, Stored>): (r: Option<string>)
    ensures r.Some? ==>
      r.value != "" && RememberedEmailKey in entries && entries[RememberedEmailKey] == Text(r.value)
    ensures RememberedEmailKey !in entries ==> r.None?
    ensures RememberedEmailKey in entries && entries[RememberedEmailKey].Text?
         && entries[RememberedEmailKey].text != ""
         ==> r == Some(entries[RememberedEmailKey].text)
  {
    if RememberedEmailKey in entries && entries[RememberedEmailKey].Text?
       && entries[RememberedEmailKey].text != ""
    then Some(entries[RememberedEmailKey].text)
    else None
  }

  /**
   * A sign-in with the box ticked pre-fills the same e-mail next time; one
   * without it leaves nothing to pre-fill.
   */
  lemma RememberRoundTrip(entries: map<string, Stored>, email: string)
    requires email != ""
    ensures RememberedEmail(RememberStep(entries, true, email)) == Some(email)
    ensures RememberedEmail(RememberStep(entries, false, email)) == None
  {
  }

  /** The keys a successful sign-in writes before the remember-me step. */
  function SessionEntries(entries: map<string, Stored>, token: string, user: User): map<string, Stored>
  {
    entries[TokenKey := Text(token)][SessionUserKey := UserJson(user)][LoggedInKey := Text("true")]
  }

  /**
   * `handleSubmit`: an empty e-mail or password is refused before any
   * request (`sent` is false) and before any write. A failed request or a
   * non-OK reply writes nothing and reports the server's message, or the
   * fallback text when there is none. An OK reply stores the session and
   * applies the remember-me step.
   */
  method HandleSubmit(storage: LocalStorage, email: string, password: string, rememberMe: bool,
                      endpoint: (string, string) -> Response)
    returns (outcome: LoginOutcome, sent: bool)
    modifies storage
    ensures (email == "" || password == "") ==>
      !sent && outcome == Rejected("Please fill in all fields")
      && storage.entries == old(storage.entries)
    ensures email != "" && password != "" ==> sent
    ensures sent ==> match endpoint(email, password)
      case Unreachable(reason) =>
        && outcome == Failed(if reason == "" then "Invalid email or password" else reason)
        && storage.entries == old(storage.entries)
      case Reply(ok, message, token, user, name) =>
        if !ok then
          && outcome == Failed(if message == "" then "Login failed" else message)
          && storage.entries == old(storage.entries)
        else
          && outcome == Welcome("Welcome back, " + (if name == "" then "User" else name) + "!")
          && storage.entries ==
               RememberStep(SessionEntries(old(storage.entries), token, user), rememberMe, email)
  {
    if email == "" || password == "" {
      return Rejected("Please fill in all fields"), false;
    }
    sent := true;
    var response := endpoint(email, password);
    match response
    case Unreachable(reason) =>
      outcome := Failed(if reason == "" then "Invalid email or password" else reason);
    case Reply(ok, message, token, user, name) =>
      if !ok {
        outcome := Failed(if message == "" then "Login failed" else message);
      } else {
        storage.SetItem(TokenKey, Text(token));
        storage.SetItem(SessionUserKey, UserJson(user));
        storage.SetItem(LoggedInKey, Text("true"));
        if rememberMe {
          storage.SetItem(RememberMeKey, Text("true"));
          storage.SetItem(RememberedEmailKey, Text(email));
        } else {
          storage.RemoveItem(RememberMeKey);
          storage.RemoveItem(RememberedEmailKey);
        }
        outcome := Welcome("Welcome back, " + (if name == "" then "User" else name) + "!");
      }
  }

  // ---------------------------------------------------------------------
  // Registration followed by sign-in

  /** The first match in a list whose earlier entries do not match is the appended one. */
  lemma {:induction false} FirstWithEmailAppended(users: seq<User>, u: User, email: string)
    requires forall i :: 0 <= i < |users| ==> !EqualsIgnoreCase(users[i].email, email)
    requires EqualsIgnoreCase(u.email, email)
    ensures FirstWithEmail(users + [u], email) == Some(u)
  {
    if users != [] {
      assert (users + [u])[1..] == users[1..] + [u];
      FirstWithEmailAppended(users[1..], u, email);
    }
  }

  /**
   * After a successful registration, looking the new e-mail up finds the new
   * user, and the password check accepts exactly the password chosen at
   * registration.
   */
  lemma RegisteredUserSignsIn(entries: map<string, Stored>, form: Register.RegisterForm,
                              agreedToTerms: bool, id: string, joinDate: string)
    requires Register.Validate(form, agreedToTerms, Register.StoredUsers(entries)) == None
    ensures var u := Register.NewUser(form, id, joinDate);
      var after := entries[UsersKey := UsersJson(Register.StoredUsers(entries) + [u])]
                          [CurrentUserKey := UserJson(u)]
                          [LoggedInKey := Text("true")];
      && FindUserByEmail(after, form.email) == Some(u)
      && forall p :: ValidatePassword(u, p) <==> p == form.password
  {
    var u := Register.NewUser(form, id, joinDate);
    var existing := Register.StoredUsers(entries);
    var after := entries[UsersKey := UsersJson(existing + [u])]
                        [CurrentUserKey := UserJson(u)]
                        [LoggedInKey := Text("true")];
    assert AllUsers(after) == existing + [u];
    forall i | 0 <= i < |existing| ensures !EqualsIgnoreCase(existing[i].email, form.email) {
      assert !Register.Clashes(existing[i], form.email, form.username);
    }
    FirstWithEmailAppended(existing, u, form.email);
  }
}
