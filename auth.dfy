/** The decision logic of `POST /signup` and `POST /signin` over the user
    table, as functions of the table and the request. Hashing and signing are
    the parameters of module Services; a failing store query (a lost
    connection, say) is a boolean parameter, while the unique-email failure
    follows from the table itself. */
module AuthFlow {
  import opened Optional
  import opened Services
  import opened Validators
  import opened Http

  /** A row of `usertable`. `password` holds what was persisted (the digest);
      `token` is null until the signup writes it. */
  datatype User = User(id: nat, name: string, email: string, password: string,
                       isAdmin: bool, token: Option<string>)

  /** `usertable` keyed by its unique email column, with the next value the
      `user_id` sequence hands out. */
  datatype UserTable = UserTable(rows: map<string, User>, nextId: nat)

  /** Each row sits under its own email, and `user_id` is a key that the
      sequence has not yet reached. */
  predicate WellFormed(t: UserTable) {
    && (forall e | e in t.rows :: t.rows[e].email == e && t.rows[e].id < t.nextId)
    && (forall e1, e2 | e1 in t.rows && e2 in t.rows && t.rows[e1].id == t.rows[e2].id :: e1 == e2)
  }

  /** Request bodies: a field is a string or absent (undefined or null). */
  datatype SignupRequest = SignupRequest(name: Option<string>, email: Option<string>, password: Option<string>)
  datatype SigninRequest = SigninRequest(email: Option<string>, password: Option<string>)

  /** JavaScript truthiness of such a field: present and not the empty string. */
  predicate Present(field: Option<string>) {
    field.Some? && field.value != ""
  }

  const MissingFieldsError := "All fields are required"
  const InvalidEmailError := "Invalid email format"
  const WeakPasswordError := "Password must be at least 8 characters long, include an uppercase letter, a lowercase letter, a digit, and a special character"
  const RegisterError := "Error registering user"
  const RegisteredMessage := "User registered successfully!"
  const UserNotFoundError := "User not found"
  const InvalidCredentialsError := "Invalid credentials"
  const SigninError := "Error signing in"
  const SignedInMessage := "Sign in successful!"
  const AdminDashboard := "admin-dashboard"
  const UserDashboard := "user-dashboard"

  predicate AllPresent(req: SignupRequest) {
    Present(req.name) && Present(req.email) && Present(req.password)
  }

  // ---------------------------------------------------------------------------
  // Signup
  // ---------------------------------------------------------------------------

  /** The three checks of the signup, in their order: the first that fails
      decides the message. */
  function SignupValidation(req: SignupRequest): (err: Option<string>)
    ensures err == Some(MissingFieldsError) <==> !AllPresent(req)
    ensures err == Some(InvalidEmailError) <==>
              AllPresent(req) && !IsValidEmail(req.email.value)
    ensures err == Some(WeakPasswordError) <==>
              AllPresent(req) && IsValidEmail(req.email.value) && !IsStrongPassword(req.password.value)
    ensures err == None <==>
              AllPresent(req) && IsValidEmail(req.email.value) && IsStrongPassword(req.password.value)
  {
    if !AllPresent(req) then Some(MissingFieldsError)
    else if !IsValidEmail(req.email.value) then Some(InvalidEmailError)
    else if !IsStrongPassword(req.password.value) then Some(WeakPasswordError)
    else None
  }

  /** `UPDATE usertable SET token = $1 WHERE user_id = $2`: every row with that
      id gets the token. */
  function SetToken(t: UserTable, id: nat, token: string): (r: UserTable)
    ensures r.nextId == t.nextId && r.rows.Keys == t.rows.Keys
  {
    UserTable(map e | e in t.rows ::
                if t.rows[e].id == id then t.rows[e].(token := Some(token)) else t.rows[e],
              t.nextId)
  }

  /** Since `user_id` is a key, the update by id touches exactly one row. */
  lemma SetTokenSingleRow(t: UserTable, e: string, token: string)
    requires WellFormed(t) && e in t.rows
    ensures SetToken(t, t.rows[e].id, token) == UserTable(t.rows[e := t.rows[e].(token := Some(token))], t.nextId)
  {
  }

  /** The row the INSERT adds: `is_admin` takes its column default, false, and
      the token column starts null. */
  function NewUser(id: nat, name: string, email: string, digest: string): User {
    User(id, name, email, digest, false, None)
  }

  /** The whole `/signup` handler: its response and the table afterwards.
      The digest is computed before the INSERT; the INSERT fails on a taken
      email; the token is issued for the new id and the default admin flag and
      then written by a separate UPDATE, so a failure after the INSERT leaves
      the row in place with a null token. */
  function Signup(t: UserTable, req: SignupRequest, hasher: Hasher, salt: Salt,
                  issue: Issuer, insertFails: bool, updateFails: bool): (out: (Response, UserTable))
    ensures out.0.status == 400 <==> SignupValidation(req).Some?
    ensures out.0.status == 400 ==> out == (Response(400, Error(SignupValidation(req).value)), t)
    ensures out.0.status == 201 || out.0.status == 400 || out.0.status == 500
    ensures out.0.status != 201 ==> out.0.body.Error?
  {
    match SignupValidation(req)
    case Some(err) => (Response(400, Error(err)), t)
    case None =>
      var name, email, password := req.name.value, req.email.value, req.password.value;
      var digest := hasher.hash(password, salt);
      if insertFails || email in t.rows then
        (Response(500, Error(RegisterError)), t)
      else
        var id := t.nextId;
        var inserted := UserTable(t.rows[email := NewUser(id, name, email, digest)], id + 1);
        match issue(id, false)
        case None => (Response(500, Error(RegisterError)), inserted)
        case Some(token) =>
          if updateFails then (Response(500, Error(RegisterError)), inserted)
          else (Response(201, Registered(RegisteredMessage, token)), SetToken(inserted, id, token))
  }

  /** A successful signup: it happens exactly when all checks pass, the email
      is free, and the token is both issued and saved; the table then gains one
      row under that email with the digest and the token that was returned,
      and nothing else changes. */
  lemma SignupCreatesUser(t: UserTable, req: SignupRequest, hasher: Hasher, salt: Salt,
                          issue: Issuer, insertFails: bool, updateFails: bool)
    requires WellFormed(t)
    ensures var (r, t') := Signup(t, req, hasher, salt, issue, insertFails, updateFails);
      && (r.status == 201 <==>
            && SignupValidation(req).None? && !insertFails && req.email.value !in t.rows
            && issue(t.nextId, false).Some? && !updateFails)
      && (r.status == 201 ==>
            var token := issue(t.nextId, false).value;
            && r.body == Registered(RegisteredMessage, token)
            && t' == UserTable(t.rows[req.email.value := User(t.nextId, req.name.value, req.email.value,
                                                              hasher.hash(req.password.value, salt), false, Some(token))],
                               t.nextId + 1))
  {
  }

  /** Adding a fresh-email row with the next id keeps the table well formed. */
  lemma InsertPreservesWellFormed(t: UserTable, u: User)
    requires WellFormed(t) && u.email !in t.rows && u.id == t.nextId
    ensures WellFormed(UserTable(t.rows[u.email := u], t.nextId + 1))
  {
  }

  /** A failing INSERT, whether the email is taken (the unique constraint)
      or the store errs, surfaces as a 500 and writes no row. */
  lemma SignupInsertFailure(t: UserTable, req: SignupRequest, hasher: Hasher, salt: Salt,
                            issue: Issuer, insertFails: bool, updateFails: bool)
    requires SignupValidation(req).None? && (insertFails || req.email.value in t.rows)
    ensures Signup(t, req, hasher, salt, issue, insertFails, updateFails) == (Response(500, Error(RegisterError)), t)
  {
  }

  /** The INSERT succeeded but signing or the token UPDATE failed: a 500, and
      the new row stays with its token still null. */
  lemma SignupTokenNotSaved(t: UserTable, req: SignupRequest, hasher: Hasher, salt: Salt,
                            issue: Issuer, updateFails: bool)
    requires SignupValidation(req).None? && req.email.value !in t.rows
    requires issue(t.nextId, false).None? || updateFails
    ensures var (r, t') := Signup(t, req, hasher, salt, issue, false, updateFails);
      && r == Response(500, Error(RegisterError))
      && t' == UserTable(t.rows[req.email.value := User(t.nextId, req.name.value, req.email.value,
                                                        hasher.hash(req.password.value, salt), false, None)],
                         t.nextId + 1)
  {
  }

  /** Whatever the outcome, no existing row is changed or removed, at most one
      row is added, and the table stays well formed. */
  lemma SignupKeepsExistingUsers(t: UserTable, req: SignupRequest, hasher: Hasher, salt: Salt,
                                 issue: Issuer, insertFails: bool, updateFails: bool)
    requires WellFormed(t)
    ensures var t' := Signup(t, req, hasher, salt, issue, insertFails, updateFails).1;
      && WellFormed(t')
      && (forall e | e in t.rows :: e in t'.rows && t'.rows[e] == t.rows[e])
      && (forall e | e in t'.rows && e !in t.rows :: req.email == Some(e))
  {
  }

  /** With a sound hasher, a row a signup adds never holds the plaintext. */
  lemma SignupStoresDigest(t: UserTable, req: SignupRequest, hasher: Hasher, salt: Salt,
                           issue: Issuer, insertFails: bool, updateFails: bool)
    requires WellFormed(t) && Sound(hasher)
    ensures var t' := Signup(t, req, hasher, salt, issue, insertFails, updateFails).1;
      forall e | e in t'.rows && e !in t.rows ::
        && req.password.Some?
        && t'.rows[e].password == hasher.hash(req.password.value, salt)
        && t'.rows[e].password != req.password.value
  {
  }

  // ---------------------------------------------------------------------------
  // Signin
  // ---------------------------------------------------------------------------

  /** `user.is_admin ? 'admin-dashboard' : 'user-dashboard'`. */
  function Dashboard(isAdmin: bool): (board: string)
    ensures board == AdminDashboard <==> isAdmin
    ensures board == UserDashboard <==> !isAdmin
  {
    if isAdmin then AdminDashboard else UserDashboard
  }

  /** The `/signin` handler. It only reads the table, and on success it returns
      the token column of the row as it stands (null included): no token is
      issued here. */
  function Signin(t: UserTable, req: SigninRequest, hasher: Hasher, selectFails: bool): (r: Response)
    ensures r.status == 400 <==>
              !Present(req.email) || !Present(req.password) || !IsValidEmail(req.email.value)
    ensures r.status == 500 <==> SigninChecksPass(req) && selectFails
    ensures r.status == 404 <==> SigninChecksPass(req) && !selectFails && req.email.value !in t.rows
    ensures r.status == 401 <==>
              && SigninChecksPass(req) && !selectFails && req.email.value in t.rows
              && !hasher.verify(req.password.value, t.rows[req.email.value].password)
    ensures r.status == 200 <==>
              && SigninChecksPass(req) && !selectFails && req.email.value in t.rows
              && hasher.verify(req.password.value, t.rows[req.email.value].password)
    ensures r.status == 200 ==>
              var user := t.rows[req.email.value];
              r.body == SignedIn(SignedInMessage, user.token, Dashboard(user.isAdmin))
    ensures r.status != 200 ==> r.body.Error?
  {
    if !Present(req.email) || !Present(req.password) then Response(400, Error(MissingFieldsError))
    else if !IsValidEmail(req.email.value) then Response(400, Error(InvalidEmailError))
    else if selectFails then Response(500, Error(SigninError))
    else if req.email.value !in t.rows then Response(404, Error(UserNotFoundError))
    else
      var user := t.rows[req.email.value];
      if !hasher.verify(req.password.value, user.password) then Response(401, Error(InvalidCredentialsError))
      else Response(200, SignedIn(SignedInMessage, user.token, Dashboard(user.isAdmin)))
  }

  /** The presence and email checks that signin runs before the lookup. */
  predicate SigninChecksPass(req: SigninRequest) {
    Present(req.email) && Present(req.password) && IsValidEmail(req.email.value)
  }

  /** A successful signup followed by a signin with the same credentials
      succeeds, lands on the user dashboard, and returns the token the signup
      returned. */
  lemma SignupThenSignin(t: UserTable, name: string, email: string, password: string,
                         hasher: Hasher, salt: Salt, issue: Issuer)
    requires WellFormed(t) && Sound(hasher)
    requires Signup(t, SignupRequest(Some(name), Some(email), Some(password)), hasher, salt, issue, false, false).0.status == 201
    ensures var (r, t') := Signup(t, SignupRequest(Some(name), Some(email), Some(password)), hasher, salt, issue, false, false);
      && r.body.Registered?
      && Signin(t', SigninRequest(Some(email), Some(password)), hasher, false)
           == Response(200, SignedIn(SignedInMessage, Some(r.body.issuedToken), UserDashboard))
  {
  }

  /** When the token was never saved, the same signin still succeeds, but the
      token it returns is null. */
  lemma SigninAfterUnsavedToken(t: UserTable, name: string, email: string, password: string,
                                hasher: Hasher, salt: Salt, issue: Issuer, updateFails: bool)
    requires Sound(hasher)
    requires SignupValidation(SignupRequest(Some(name), Some(email), Some(password))).None?
    requires email !in t.rows
    requires issue(t.nextId, false).None? || updateFails
    ensures var (r, t') := Signup(t, SignupRequest(Some(name), Some(email), Some(password)), hasher, salt, issue, false, updateFails);
      && r.status == 500
      && Signin(t', SigninRequest(Some(email), Some(password)), hasher, false)
           == Response(200, SignedIn(SignedInMessage, None, UserDashboard))
  {
  }
}
