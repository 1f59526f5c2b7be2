/**
 * The authentication blueprint: registration's validation chain and the user
 * it creates, the login acceptance rules, and profile editing. Password
 * hashing is an input: `hash` turns a password into the stored hash and
 * `passwordMatches` checks a password against a stored hash.
 */
module Auth {
  import opened Wrappers
  import opened Text
  import opened Tables
  import opened Models
  import opened Store

  /** The stored form of an email: `raw.lower().strip()`. */
  function NormalizeEmail(raw: string): (r: string)
    ensures |r| == |Strip(raw)| && forall i :: 0 <= i < |r| ==> r[i] == LowerChar(Strip(raw)[i])
    ensures forall i :: 0 <= i < |r| ==> !IsAsciiUpper(r[i])
    ensures r == [] || (!IsSpace(r[0]) && !IsSpace(r[|r| - 1]))
    ensures r == [] <==> !HasVisibleChar(raw)
  {
    NormalizedShape(raw);
    StripLower(raw);
    Strip(Lower(raw))
  }

  lemma NormalizedShape(raw: string)
    ensures forall i :: 0 <= i < |Strip(Lower(raw))| ==> !IsAsciiUpper(Strip(Lower(raw))[i])
    ensures Strip(Lower(raw)) == [] <==> !HasVisibleChar(raw)
  {
    var lowered := Lower(raw);
    var r := Strip(lowered);
    var lo :| OccursAt(r, lowered, lo);
    forall i | 0 <= i < |r|
      ensures !IsAsciiUpper(r[i])
    {
      assert r[i] == lowered[lo + i];
    }
    LowerKeepsSpaces(raw);
    if HasVisibleChar(raw) {
      var i :| 0 <= i < |raw| && !IsSpace(raw[i]);
      assert !IsSpace(lowered[i]);
    }
    if HasVisibleChar(lowered) {
      var i :| 0 <= i < |lowered| && !IsSpace(lowered[i]);
      assert !IsSpace(raw[i]);
    }
  }

  /** Normalising a stored email again changes nothing. */
  lemma NormalizeEmailIdempotent(raw: string)
    ensures NormalizeEmail(NormalizeEmail(raw)) == NormalizeEmail(raw)
  {
    var r := NormalizeEmail(raw);
    assert Lower(r) == r;
    StripIdempotent(Lower(raw));
  }

  /** The registration form; an absent field is `None` and reads as the empty string. */
  datatype RegistrationForm = RegistrationForm(
    firstName: Option<string>,
    lastName: Option<string>,
    email: Option<string>,
    password: Option<string>,
    confirmPassword: Option<string>,
    phone: Option<string>,
    country: Option<string>,
    educationLevel: Option<string>,
    fieldOfInterest: Option<string>,
    destinations: seq<string>)

  datatype RegistrationError = MissingRequired | PasswordMismatch | PasswordTooShort | EmailTaken

  const MinPasswordLength := 8

  /**
   * The five required fields are non-empty after the handler's own clean-up:
   * names and email stripped, password and country as given.
   */
  predicate RequiredPresent(form: RegistrationForm) {
    && HasVisibleChar(form.firstName.GetOr("")) && HasVisibleChar(form.lastName.GetOr(""))
    && HasVisibleChar(form.email.GetOr("")) && form.password.GetOr("") != "" && form.country.GetOr("") != ""
  }

  /** The lookup of the duplicate check: a user with this exact email. */
  function HasEmail(email: string): User -> bool {
    (u: User) => u.email == email
  }

  /** Some user has exactly this email. */
  predicate EmailRegistered(users: map<int, User>, email: string) {
    exists k :: k in users && users[k].email == email
  }

  /**
   * The checks of `register`, in order; the first that fails decides. `None`
   * means every check passed.
   */
  function CheckRegistration(users: map<int, User>, hi: int, form: RegistrationForm): (r: Option<RegistrationError>)
    requires IdsBelow(users, hi)
    ensures r == Some(MissingRequired) <==> !RequiredPresent(form)
    ensures r == Some(PasswordMismatch) <==>
      RequiredPresent(form) && form.password.GetOr("") != form.confirmPassword.GetOr("")
    ensures r == Some(PasswordTooShort) <==>
      RequiredPresent(form) && form.password.GetOr("") == form.confirmPassword.GetOr("")
      && |form.password.GetOr("")| < MinPasswordLength
    ensures r == Some(EmailTaken) <==>
      RequiredPresent(form) && form.password.GetOr("") == form.confirmPassword.GetOr("")
      && |form.password.GetOr("")| >= MinPasswordLength
      && EmailRegistered(users, NormalizeEmail(form.email.GetOr("")))
  {
    var firstName := Strip(form.firstName.GetOr(""));
    var lastName := Strip(form.lastName.GetOr(""));
    var email := NormalizeEmail(form.email.GetOr(""));
    var password := form.password.GetOr("");
    if firstName == [] || lastName == [] || email == [] || password == [] || form.country.GetOr("") == [] then
      Some(MissingRequired)
    else if password != form.confirmPassword.GetOr("") then Some(PasswordMismatch)
    else if |password| < MinPasswordLength then Some(PasswordTooShort)
    else if FirstKey(users, HasEmail(email), 1, hi).Some? then Some(EmailTaken)
    else None
  }

  /** The user `register` builds from a form that passed every check. */
  function RegisteredUser(form: RegistrationForm, passwordHash: string, now: int): (u: User)
    ensures u.email == NormalizeEmail(form.email.GetOr(""))
    ensures u.firstName == Strip(form.firstName.GetOr("")) && u.lastName == Strip(form.lastName.GetOr(""))
    ensures u.phone == Strip(form.phone.GetOr("")) && u.country == form.country.GetOr("")
    ensures u.educationLevel == form.educationLevel.GetOr("") && u.fieldOfInterest == form.fieldOfInterest.GetOr("")
    ensures u.passwordHash == passwordHash
    ensures u.preferredDestinations.None? <==> form.destinations == []
    ensures u.preferredDestinations.Some? ==> u.preferredDestinations.value == form.destinations
    ensures u.role == Student && u.isActive && !u.isVerified && u.lastLogin.None? && u.createdAt == now
  {
    NewUser(NormalizeEmail(form.email.GetOr("")), passwordHash,
            Strip(form.firstName.GetOr("")), Strip(form.lastName.GetOr("")),
            Strip(form.phone.GetOr("")), form.country.GetOr(""),
            form.educationLevel.GetOr(""), form.fieldOfInterest.GetOr(""),
            if form.destinations == [] then None else Some(form.destinations), now)
  }

  /**
   * A user created from a form that passed every check has non-blank names and
   * a stored email that is lower-case, trimmed and new to the table.
   */
  lemma RegisteredUserWellFormed(users: map<int, User>, hi: int, form: RegistrationForm, passwordHash: string, now: int)
    requires IdsBelow(users, hi) && CheckRegistration(users, hi, form).None?
    ensures var u := RegisteredUser(form, passwordHash, now);
      && u.firstName != [] && u.lastName != [] && u.email != []
      && (forall i :: 0 <= i < |u.email| ==> !IsAsciiUpper(u.email[i]))
      && !EmailRegistered(users, u.email)
  {
  }

  datatype RegisterOutcome =
    | RegisterRedirectHome             // already logged in
    | RegisterPage                     // GET
    | RegisterRejected(error: RegistrationError)
    | Registered(userId: int)

  /** `register`: on success exactly one user is added; on any failure the table is unchanged. */
  method Register(db: Database, authenticated: bool, isPost: bool, form: RegistrationForm,
                  hash: string -> string, now: int) returns (outcome: RegisterOutcome)
    requires db.Valid()
    modifies db`users, db`nextUserId
    ensures db.Valid()
    ensures authenticated ==> outcome == RegisterRedirectHome
    ensures !authenticated && !isPost ==> outcome == RegisterPage
    ensures !authenticated && isPost ==>
      match CheckRegistration(old(db.users), old(db.nextUserId), form)
      case Some(error) => outcome == RegisterRejected(error)
      case None => outcome == Registered(old(db.nextUserId))
    ensures !outcome.Registered? ==> db.users == old(db.users) && db.nextUserId == old(db.nextUserId)
    ensures outcome.Registered? ==>
      && db.nextUserId == old(db.nextUserId) + 1
      && db.users == old(db.users)[outcome.userId := RegisteredUser(form, hash(form.password.GetOr("")), now)]
  {
    if authenticated {
      return RegisterRedirectHome;
    }
    if !isPost {
      return RegisterPage;
    }
    var check := CheckRegistration(db.users, db.nextUserId, form);
    if check.Some? {
      return RegisterRejected(check.value);
    }
    var user := RegisteredUser(form, hash(form.password.GetOr("")), now);
    RegisteredUserWellFormed(db.users, db.nextUserId, form, hash(form.password.GetOr("")), now);
    var id := db.InsertUser(user);
    outcome := Registered(id);
  }

  // ---------------------------------------------------------------------------
  // Login.

  datatype LoginDecision = MissingCredentials | InvalidCredentials | AccountDeactivated | LoginAccepted(userId: int)

  /**
   * The acceptance rules of `login`: both fields must be non-empty, the user
   * is looked up by the lower-cased email as typed (not stripped), the
   * password must match, and the account must be active.
   */
  function CheckLogin(users: map<int, User>, hi: int, email: Option<string>, password: Option<string>,
                      passwordMatches: (string, string) -> bool): (r: LoginDecision)
    requires IdsBelow(users, hi) && EmailsUnique(users)
    ensures r == MissingCredentials <==> email.GetOr("") == "" || password.GetOr("") == ""
    ensures r.LoginAccepted? <==>
      && email.GetOr("") != "" && password.GetOr("") != ""
      && exists k :: k in users && users[k].email == Lower(email.value)
                     && passwordMatches(users[k].passwordHash, password.value) && users[k].isActive
    ensures r.LoginAccepted? ==>
      && r.userId in users && users[r.userId].email == Lower(email.value)
      && passwordMatches(users[r.userId].passwordHash, password.value) && users[r.userId].isActive
    ensures r == AccountDeactivated <==>
      && email.GetOr("") != "" && password.GetOr("") != ""
      && exists k :: k in users && users[k].email == Lower(email.value)
                     && passwordMatches(users[k].passwordHash, password.value) && !users[k].isActive
  {
    if email.GetOr("") == "" || password.GetOr("") == "" then MissingCredentials
    else
      match FirstKey(users, HasEmail(Lower(email.value)), 1, hi)
      case None => InvalidCredentials
      case Some(k) =>
        if !passwordMatches(users[k].passwordHash, password.value) then InvalidCredentials
        else if !users[k].isActive then AccountDeactivated
        else LoginAccepted(k)
  }

  /** A user registered with an email typed without surrounding whitespace can be found by it at login. */
  lemma RegisteredEmailFindsUser(raw: string)
    requires raw == [] || (!IsSpace(raw[0]) && !IsSpace(raw[|raw| - 1]))
    ensures NormalizeEmail(raw) == Lower(raw)
  {
    var lowered := Lower(raw);
    if raw != [] {
      LowerKeepsSpaces(raw);
      assert !IsSpace(lowered[0]) && !IsSpace(lowered[|lowered| - 1]);
    }
    StripKeepsTrimmed(lowered);
  }

  datatype Redirect = ToNext(url: string) | ToAdminDashboard | ToDashboard

  /** Where a successful login goes: `next` when it is given and non-empty, else by role. */
  function AfterLogin(next: Option<string>, role: UserRole): (r: Redirect)
    ensures r.ToNext? <==> next.GetOr("") != ""
    ensures r.ToNext? ==> next == Some(r.url)
    ensures r == ToAdminDashboard <==> next.GetOr("") == "" && role == Admin
  {
    if next.GetOr("") != "" then ToNext(next.value)
    else if role == Admin then ToAdminDashboard
    else ToDashboard
  }

  datatype LoginOutcome =
    | LoginRedirectHome                // already logged in
    | LoginPage                        // GET
    | LoginRejected(decision: LoginDecision)
    | LoggedIn(userId: int, redirect: Redirect)
    | LoginServerError                 // an exception escaped the handler

  /**
   * `login` as written: once the rules accept, the session is logged in and
   * then `datetime.utcnow()` names a module auth.py never imports. The
   * NameError ends the request with a server error before the commit, so
   * `last_login` is never stored and the redirect is never sent.
   */
  function LoginAsWritten(users: map<int, User>, hi: int, authenticated: bool, isPost: bool,
                          email: Option<string>, password: Option<string>,
                          passwordMatches: (string, string) -> bool): (r: (map<int, User>, LoginOutcome))
    requires IdsBelow(users, hi) && EmailsUnique(users)
    ensures r.0 == users
    ensures !r.1.LoggedIn?
    ensures r.1 == LoginServerError <==>
      !authenticated && isPost && CheckLogin(users, hi, email, password, passwordMatches).LoginAccepted?
  {
    if authenticated then (users, LoginRedirectHome)
    else if !isPost then (users, LoginPage)
    else
      match CheckLogin(users, hi, email, password, passwordMatches)
      case LoginAccepted(_) => (users, LoginServerError)
      case decision => (users, LoginRejected(decision))
  }

  /** `login` with `datetime` imported: an accepted login stamps `last_login` and redirects. */
  function Login(users: map<int, User>, hi: int, authenticated: bool, isPost: bool,
                 email: Option<string>, password: Option<string>, next: Option<string>,
                 passwordMatches: (string, string) -> bool, now: int): (r: (map<int, User>, LoginOutcome))
    requires IdsBelow(users, hi) && EmailsUnique(users)
    ensures r.1.LoggedIn? <==>
      !authenticated && isPost && CheckLogin(users, hi, email, password, passwordMatches).LoginAccepted?
    ensures !r.1.LoggedIn? ==> r.0 == users
    ensures r.1.LoggedIn? ==>
      && r.1.userId == CheckLogin(users, hi, email, password, passwordMatches).userId
      && r.0 == users[r.1.userId := users[r.1.userId].(lastLogin := Some(now))]
      && r.1.redirect == AfterLogin(next, users[r.1.userId].role)
    ensures r.1 != LoginServerError
  {
    if authenticated then (users, LoginRedirectHome)
    else if !isPost then (users, LoginPage)
    else
      match CheckLogin(users, hi, email, password, passwordMatches)
      case LoginAccepted(k) =>
        (users[k := users[k].(lastLogin := Some(now))], LoggedIn(k, AfterLogin(next, users[k].role)))
      case decision => (users, LoginRejected(decision))
  }

  /**
   * Wherever the corrected handler logs a user in and records the time, the
   * handler as written fails with a server error and records nothing.
   */
  lemma LoginAsWrittenLosesLastLogin(users: map<int, User>, hi: int, email: Option<string>, password: Option<string>,
                                     next: Option<string>, passwordMatches: (string, string) -> bool, now: int)
    requires IdsBelow(users, hi) && EmailsUnique(users)
    requires CheckLogin(users, hi, email, password, passwordMatches).LoginAccepted?
    ensures var fixed := Login(users, hi, false, true, email, password, next, passwordMatches, now);
            var written := LoginAsWritten(users, hi, false, true, email, password, passwordMatches);
            && fixed.1.LoggedIn? && fixed.0[fixed.1.userId].lastLogin == Some(now)
            && written.1 == LoginServerError && written.0 == users
  {
  }

  /** A concrete login the rules accept: one active user whose password matches. */
  lemma LoginCrashExample()
    ensures var users := map[1 := NewUser("a@b", "h", "Ana", "Diaz", "", "ca", "", "", None, 0)];
            var matches := (hashed: string, given: string) => hashed == "h" && given == "pw";
            && CheckLogin(users, 2, Some("A@b"), Some("pw"), matches) == LoginAccepted(1)
            && LoginAsWritten(users, 2, false, true, Some("A@b"), Some("pw"), matches).1 == LoginServerError
            && Login(users, 2, false, true, Some("A@b"), Some("pw"), None, matches, 5).0[1].lastLogin == Some(5)
  {
    var users := map[1 := NewUser("a@b", "h", "Ana", "Diaz", "", "ca", "", "", None, 0)];
    assert Lower("A@b") == "a@b";
    assert EmailsUnique(users);
  }

  /** `login` (corrected) on the store. */
  method LoginHandler(db: Database, authenticated: bool, isPost: bool, email: Option<string>,
                      password: Option<string>, next: Option<string>,
                      passwordMatches: (string, string) -> bool, now: int) returns (outcome: LoginOutcome)
    requires db.Valid()
    modifies db`users
    ensures db.Valid()
    ensures (db.users, outcome) == Login(old(db.users), db.nextUserId, authenticated, isPost, email, password,
                                         next, passwordMatches, now)
  {
    if authenticated {
      return LoginRedirectHome;
    }
    if !isPost {
      return LoginPage;
    }
    var decision := CheckLogin(db.users, db.nextUserId, email, password, passwordMatches);
    if !decision.LoginAccepted? {
      return LoginRejected(decision);
    }
    var user := db.users[decision.userId];
    db.SetUser(decision.userId, user.(lastLogin := Some(now)));
    outcome := LoggedIn(decision.userId, AfterLogin(next, user.role));
  }

  // ---------------------------------------------------------------------------
  // Profile editing.

  /** The profile form; an absent field reads as the empty string. */
  datatype ProfileForm = ProfileForm(
    firstName: Option<string>, lastName: Option<string>, phone: Option<string>, country: Option<string>,
    educationLevel: Option<string>, fieldOfInterest: Option<string>, destinations: seq<string>)

  /**
   * `edit_profile`'s assignments: names and phone stripped, the rest as given,
   * with no validation at all; email, password, role and status are untouched.
   */
  function EditProfile(u: User, form: ProfileForm): (r: User)
    ensures r.email == u.email && r.passwordHash == u.passwordHash && r.role == u.role
    ensures r.isActive == u.isActive && r.isVerified == u.isVerified
    ensures r.createdAt == u.createdAt && r.lastLogin == u.lastLogin
    ensures r.firstName == Strip(form.firstName.GetOr("")) && r.lastName == Strip(form.lastName.GetOr(""))
    ensures r.phone == Strip(form.phone.GetOr("")) && r.country == form.country.GetOr("")
    ensures r.educationLevel == form.educationLevel.GetOr("") && r.fieldOfInterest == form.fieldOfInterest.GetOr("")
    ensures r.preferredDestinations.None? <==> form.destinations == []
    ensures r.preferredDestinations.Some? ==> r.preferredDestinations.value == form.destinations
  {
    u.(firstName := Strip(form.firstName.GetOr("")), lastName := Strip(form.lastName.GetOr("")),
       phone := Strip(form.phone.GetOr("")), country := form.country.GetOr(""),
       educationLevel := form.educationLevel.GetOr(""), fieldOfInterest := form.fieldOfInterest.GetOr(""),
       preferredDestinations := if form.destinations == [] then None else Some(form.destinations))
  }

  /** The profile form pre-filled with what the registration form carried. */
  function ProfileOf(form: RegistrationForm): ProfileForm {
    ProfileForm(form.firstName, form.lastName, form.phone, form.country,
                form.educationLevel, form.fieldOfInterest, form.destinations)
  }

  /**
   * Editing a freshly registered profile with the values it was registered
   * with changes nothing: registration and profile editing store the
   * profile fields alike.
   */
  lemma {:induction false} EditRegisteredProfile(form: RegistrationForm, passwordHash: string, now: int)
    ensures var u := RegisteredUser(form, passwordHash, now);
            EditProfile(u, ProfileOf(form)) == u
  {
  }

  /**
   * Editing a profile never changes the outcome of a later login, for any
   * credentials: login reads only the email, the password hash and the
   * active flag, which editing leaves alone.
   */
  lemma {:induction false} EditProfileKeepsLogin(users: map<int, User>, hi: int, caller: int, form: ProfileForm,
                                                 email: Option<string>, password: Option<string>,
                                                 passwordMatches: (string, string) -> bool)
    requires IdsBelow(users, hi) && EmailsUnique(users) && caller in users
    ensures var edited := users[caller := EditProfile(users[caller], form)];
            && EmailsUnique(edited)
            && CheckLogin(edited, hi, email, password, passwordMatches) == CheckLogin(users, hi, email, password, passwordMatches)
  {
    var edited := users[caller := EditProfile(users[caller], form)];
    SameEmailKeepsUnique(users, caller, EditProfile(users[caller], form));
    if email.GetOr("") != "" && password.GetOr("") != "" {
      FirstKeyAgrees(users, edited, HasEmail(Lower(email.value)), 1, hi);
    }
  }

  /** `edit_profile` on a POST: the caller's own row is rewritten. */
  method EditProfileHandler(db: Database, caller: int, form: ProfileForm)
    requires db.Valid() && caller in db.users
    modifies db`users
    ensures db.Valid()
    ensures db.users == old(db.users)[caller := EditProfile(old(db.users)[caller], form)]
  {
    db.SetUser(caller, EditProfile(db.users[caller], form));
  }
}
