/**
 * The registration page: the ordered checks on the form, the duplicate-user
 * check, the password-strength meter, the first/last name split and the write
 * that appends the new user to the stored users list.
 */
module Register {
  import opened Wrappers
  import opened Ascii
  import opened Storage

  datatype RegisterForm = RegisterForm(
    email: string,
    username: string,
    password: string,
    confirmPassword: string,
    phone: string)

  /** The reasons `handleSubmit` stops, in the order it checks them. */
  datatype RegisterError = MissingField | PasswordMismatch | TermsNotAgreed | AlreadyRegistered

  /** The toast shown for each failed check. */
  function ErrorMessage(e: RegisterError): string
  {
    match e
    case MissingField => "Please fill in all required fields"
    case PasswordMismatch => "Passwords do not match"
    case TermsNotAgreed => "Please agree to the terms and conditions"
    case AlreadyRegistered => "User with this email or username already exists"
  }

  /** The toast shown after a successful registration. */
  const SuccessMessage := "Registration successful! Welcome to PERFUME."

  /** A required field (everything but the phone) is empty. */
  predicate MissingRequired(form: RegisterForm)
  {
    form.email == "" || form.username == "" || form.password == "" || form.confirmPassword == ""
  }

  // ---------------------------------------------------------------------
  // Reading the stored users

  /**
   * This page's `getAllUsers`: the parsed `perfume_users` list, or the empty
   * list when the key is missing, empty or does not hold a list.
   */
  function StoredUsers(entries: map<string, Stored>): (r: seq<User>)
    ensures UsersKey in entries && entries[UsersKey].UsersJson? ==> r == entries[UsersKey].users
    ensures !(UsersKey in entries && entries[UsersKey].UsersJson?) ==> r == []
  {
    if UsersKey in entries && Truthy(Some(entries[UsersKey])) then
      match entries[UsersKey]
      case UsersJson(users) => users
      case _ => []
    else []
  }

  // ---------------------------------------------------------------------
  // The duplicate check

  /** A stored user clashes with the form: same e-mail or same user name, ignoring case. */
  predicate Clashes(user: User, email: string, username: string)
  {
    EqualsIgnoreCase(user.email, email) || EqualsIgnoreCase(user.username, username)
  }

  /**
   * `existingUsers.some(user => user.email.toLowerCase() === email.toLowerCase()
   *   || user.username.toLowerCase() === username.toLowerCase())`.
   */
  function UserExists(users: seq<User>, email: string, username: string): (r: bool)
    ensures r <==> exists i :: 0 <= i < |users| && Clashes(users[i], email, username)
  {
    if users == [] then false
    else
      Clashes(users[0], email, username) || UserExists(users[1..], email, username)
  }

  /**
   * The checks of `handleSubmit`, first failure wins: a missing required
   * field, then a password mismatch, then the terms, then a duplicate user.
   */
  function Validate(form: RegisterForm, agreedToTerms: bool, users: seq<User>): (r: Option<RegisterError>)
    ensures r == Some(MissingField) <==> MissingRequired(form)
    ensures r == Some(PasswordMismatch) <==>
      !MissingRequired(form) && form.password != form.confirmPassword
    ensures r == Some(TermsNotAgreed) <==>
      !MissingRequired(form) && form.password == form.confirmPassword && !agreedToTerms
    ensures r == Some(AlreadyRegistered) <==>
      !MissingRequired(form) && form.password == form.confirmPassword && agreedToTerms
      && exists i :: 0 <= i < |users| && Clashes(users[i], form.email, form.username)
    ensures r == None <==>
      !MissingRequired(form) && form.password == form.confirmPassword && agreedToTerms
      && !UserExists(users, form.email, form.username)
  {
    if MissingRequired(form) then Some(MissingField)
    else if form.password != form.confirmPassword then Some(PasswordMismatch)
    else if !agreedToTerms then Some(TermsNotAgreed)
    else if UserExists(users, form.email, form.username) then Some(AlreadyRegistered)
    else None
  }

  // ---------------------------------------------------------------------
  // Splitting the user name

  /** `s.split(' ')`: the pieces between single spaces, empty pieces included. */
  function SplitOnSpace(s: string): (r: seq<string>)
    ensures |r| >= 1
    ensures forall k :: 0 <= k < |r| ==> ' ' !in r[k]
  {
    if s == [] then [""]
    else
      var rest := SplitOnSpace(s[1..]);
      if s[0] == ' ' then [""] + rest
      else [[s[0]] + rest[0]] + rest[1..]
  }

  /** `pieces.join(' ')`. */
  function JoinWithSpace(pieces: seq<string>): string
    requires |pieces| >= 1
  {
    if |pieces| == 1 then pieces[0] else pieces[0] + " " + JoinWithSpace(pieces[1..])
  }

  /** Splitting and joining again gives back the user name. */
  lemma {:induction false} JoinSplit(s: string)
    ensures JoinWithSpace(SplitOnSpace(s)) == s
  {
    if s != [] {
      var rest := SplitOnSpace(s[1..]);
      JoinSplit(s[1..]);
      if s[0] == ' ' {
        assert ([""] + rest)[1..] == rest;
      } else {
        var r := [[s[0]] + rest[0]] + rest[1..];
        if |rest| > 1 {
          assert r[1..] == rest[1..];
          assert JoinWithSpace(rest) == rest[0] + " " + JoinWithSpace(rest[1..]);
        }
      }
    }
  }

  /** Joining space-free pieces and splitting again gives back the pieces. */
  lemma {:induction false} SplitJoin(pieces: seq<string>)
    requires |pieces| >= 1
    requires forall k :: 0 <= k < |pieces| ==> ' ' !in pieces[k]
    ensures SplitOnSpace(JoinWithSpace(pieces)) == pieces
  {
    if |pieces| == 1 {
      SplitWord(pieces[0], []);
      assert pieces[0] + [] == pieces[0];
      assert pieces == [pieces[0]];
    } else {
      var tail := JoinWithSpace(pieces[1..]);
      SplitJoin(pieces[1..]);
      var spaced := " " + tail;
      assert spaced[0] == ' ' && spaced[1..] == tail;
      assert SplitOnSpace(spaced) == [""] + pieces[1..];
      SplitWord(pieces[0], spaced);
      assert JoinWithSpace(pieces) == pieces[0] + spaced;
      assert SplitOnSpace(spaced)[0] == "" && SplitOnSpace(spaced)[1..] == pieces[1..];
      assert pieces[0] + "" == pieces[0];
      assert [pieces[0]] + pieces[1..] == pieces;
    }
  }

  /** A space-free prefix becomes part of the first piece. */
  lemma {:induction false} SplitWord(w: string, s: string)
    requires ' ' !in w
    ensures SplitOnSpace(w + s) == [w + SplitOnSpace(s)[0]] + SplitOnSpace(s)[1..]
  {
    if w != [] {
      SplitWord(w[1..], s);
      assert (w + s)[1..] == w[1..] + s;
      assert [w[0]] + (w[1..] + SplitOnSpace(s)[0]) == w + SplitOnSpace(s)[0];
    } else {
      var r := SplitOnSpace(s);
      assert w + s == s && w + r[0] == r[0];
      assert [r[0]] + r[1..] == r;
    }
  }

  /** `formData.username.split(' ')[0] || formData.username`. */
  function FirstName(username: string): string
  {
    var pieces := SplitOnSpace(username);
    if pieces[0] != "" then pieces[0] else username
  }

  /** `formData.username.split(' ')[1] || ''`. */
  function LastName(username: string): string
  {
    var pieces := SplitOnSpace(username);
    if |pieces| > 1 && pieces[1] != "" then pieces[1] else ""
  }

  /** A name without a space is all first name, with an empty last name. */
  lemma OneWordName(first: string)
    requires first != "" && ' ' !in first
    ensures FirstName(first) == first && LastName(first) == ""
  {
    SplitJoin([first]);
  }

  /**
   * A name "First Last" (and anything after a further space) gives its first
   * two words as first and last name.
   */
  lemma NameParts(first: string, last: string, more: seq<string>)
    requires first != "" && ' ' !in first && ' ' !in last
    requires forall k :: 0 <= k < |more| ==> ' ' !in more[k]
    ensures var name := JoinWithSpace([first, last] + more);
      FirstName(name) == first && LastName(name) == last
  {
    var pieces := [first, last] + more;
    forall k | 0 <= k < |pieces| ensures ' ' !in pieces[k] {
      if k >= 2 { assert pieces[k] == more[k - 2]; }
    }
    SplitJoin(pieces);
    NamesFromPieces(JoinWithSpace(pieces));
  }

  /** With two or more pieces and a non-empty first one, the names are the first two pieces. */
  lemma NamesFromPieces(name: string)
    requires |SplitOnSpace(name)| >= 2 && SplitOnSpace(name)[0] != ""
    ensures FirstName(name) == SplitOnSpace(name)[0]
    ensures LastName(name) == SplitOnSpace(name)[1]
  {
  }

  /** A name that starts with a space keeps the whole name as first name. */
  lemma LeadingSpaceName(rest: string)
    ensures FirstName(" " + rest) == " " + rest
  {
    assert (" " + rest)[1..] == rest;
  }

  /** The record `handleSubmit` stores; its id and join date come from the clock. */
  function NewUser(form: RegisterForm, id: string, joinDate: string): (u: User)
    ensures u.email == form.email && u.username == form.username
    ensures u.password == form.password && u.demoPassword == None
    ensures u.firstName == FirstName(form.username) && u.lastName == LastName(form.username)
  {
    User(id, FirstName(form.username), LastName(form.username), form.email, form.username,
         form.password, None, form.phone, joinDate)
  }

  // ---------------------------------------------------------------------
  // Submitting

  /**
   * `handleSubmit`: runs the checks against the stored users; on the first
   * failure nothing is written and that failure's toast is returned.
   * Otherwise the new user is appended to the users list, becomes the
   * current user, and the logged-in flag is set.
   */
  method HandleSubmit(storage: LocalStorage, form: RegisterForm, agreedToTerms: bool,
                      id: string, joinDate: string)
    returns (r: Result<User, RegisterError>, toast: string)
    modifies storage
    ensures toast == match r
      case Failure(e) => ErrorMessage(e)
      case Success(_) => SuccessMessage
    ensures var check := Validate(form, agreedToTerms, StoredUsers(old(storage.entries)));
      && (check.Some? ==> r == Failure(check.value) && storage.entries == old(storage.entries))
      && (check.None? ==> r == Success(NewUser(form, id, joinDate)))
    ensures r.Success? ==>
      && StoredUsers(storage.entries) == StoredUsers(old(storage.entries)) + [r.value]
      && storage.entries == old(storage.entries)
           [UsersKey := UsersJson(StoredUsers(old(storage.entries)) + [r.value])]
           [CurrentUserKey := UserJson(r.value)]
           [LoggedInKey := Text("true")]
  {
    var existingUsers := StoredUsers(storage.entries);
    var check := Validate(form, agreedToTerms, existingUsers);
    if check.Some? {
      return Failure(check.value), ErrorMessage(check.value);
    }
    var user := NewUser(form, id, joinDate);
    storage.SetItem(UsersKey, UsersJson(existingUsers + [user]));
    storage.SetItem(CurrentUserKey, UserJson(user));
    storage.SetItem(LoggedInKey, Text("true"));
    r := Success(user);
    toast := SuccessMessage;
  }

  // ---------------------------------------------------------------------
  // Password strength

  predicate HasUpper(p: string) { exists i :: 0 <= i < |p| && IsUpper(p[i]) }

  predicate HasDigit(p: string) { exists i :: 0 <= i < |p| && IsDigit(p[i]) }

  /** `/[^A-Za-z0-9]/.test(p)`. */
  predicate HasSymbol(p: string) { exists i :: 0 <= i < |p| && !IsAlnum(p[i]) }

  /** The four criteria the meter scores, in the order it tests them. */
  function Criteria(p: string): seq<bool>
  {
    [|p| >= 8, HasUpper(p), HasDigit(p), HasSymbol(p)]
  }

  function CountTrue(bs: seq<bool>): (n: nat)
    ensures n <= |bs|
  {
    if bs == [] then 0 else (if bs[0] then 1 else 0) + CountTrue(bs[1..])
  }

  /** `passwordStrength`: one point for each criterion met. */
  method PasswordStrength(password: string) returns (strength: nat)
    ensures strength == CountTrue(Criteria(password))
    ensures strength <= 4
    ensures strength == 4 <==>
      |password| >= 8 && HasUpper(password) && HasDigit(password) && HasSymbol(password)
    ensures strength == 0 <==>
      |password| < 8 && !HasUpper(password) && !HasDigit(password) && !HasSymbol(password)
  {
    strength := 0;
    if |password| >= 8 { strength := strength + 1; }
    if HasUpper(password) { strength := strength + 1; }
    if HasDigit(password) { strength := strength + 1; }
    if HasSymbol(password) { strength := strength + 1; }
    var c := Criteria(password);
    assert c[1..][1..][1..][1..] == [];
    assert CountTrue(c[1..][1..][1..]) == (if c[3] then 1 else 0);
    assert CountTrue(c[1..][1..]) == (if c[2] then 1 else 0) + (if c[3] then 1 else 0);
  }

  const StrengthText: seq<string> := ["Weak", "Fair", "Good", "Strong"]

  /** `strengthText[strength - 1] || 'None'`. */
  function StrengthLabel(strength: nat): (text: string)
    requires strength <= 4
    ensures text == "None" <==> strength == 0
    ensures strength > 0 ==> text == StrengthText[strength - 1]
  {
    if strength == 0 then "None" else StrengthText[strength - 1]
  }

  /** Which of the four bars are coloured: bar `index` when `index < strength`. */
  function StrengthBars(strength: nat): seq<bool>
    requires strength <= 4
  {
    seq(4, index requires 0 <= index < 4 => index < strength)
  }

  /** Exactly `strength` bars are filled, and they are the leftmost ones. */
  lemma {:induction false} BarsFilled(strength: nat)
    requires strength <= 4
    ensures CountTrue(StrengthBars(strength)) == strength
    ensures forall i :: 0 <= i < strength ==> StrengthBars(strength)[i]
  {
    var b := StrengthBars(strength);
    assert b[1..][1..][1..][1..] == [];
    assert CountTrue(b[1..][1..][1..]) == (if 3 < strength then 1 else 0);
    assert CountTrue(b[1..][1..]) == (if 2 < strength then 1 else 0) + (if 3 < strength then 1 else 0);
  }

  // ---------------------------------------------------------------------
  // Social sign-up buttons

  datatype Platform = Facebook | Twitter

  datatype SocialRegister = SocialRegister(facebook: bool, twitter: bool)

  /** `handleSocialRegister`: marks the chosen platform, and only it. */
  function HandleSocialRegister(platform: Platform): (r: SocialRegister)
    ensures r.facebook != r.twitter
    ensures r.facebook <==> platform == Facebook
    ensures r.twitter <==> platform == Twitter
  {
    SocialRegister(platform == Facebook, platform == Twitter)
  }
}
