# Event management backend: auth flow, validators and RSVP

A Dafny model of the request-handling logic of a small Express/PostgreSQL
backend (`server.js`). It covers:

- the two input validators: the email regular expression
  `/^[^\s@]+@[^\s@]+\.[^\s@]+$/` and the password-strength rule (module
  `Validators`);
- the `POST /signup` and `POST /signin` handlers as state machines over the
  user table (module `AuthFlow`, pure functions of the table and the request);
- the `POST /events/rsvp/:id` capacity decrement (module `EventFlow`);
- a `Database` class (module `Server`) whose fields are the user table (a map
  from email to row, plus the next `user_id`) and the event table (a map from
  id to row). `Signup` and `Rsvp` change those fields in place and are proved
  equal to `AuthFlow.Signup` and `EventFlow.Rsvp` on the old tables; `Signin`
  only reads and is proved equal to `AuthFlow.Signin`; `CreateEvent` always
  answers 500 and changes nothing.

bcrypt and jsonwebtoken are foreign libraries. They appear as parameters
(module `Services`). A `Hasher` is a pair of functions `hash(plaintext, salt)`
and `verify(plaintext, digest)`. The predicate `Sound` states the two facts the
flow relies on: a password verifies against its own digest, and the digest is
never the plaintext. The lemmas that need these facts require `Sound`. An
`Issuer` maps `(userId, isAdmin)` to a token, or to `None` when signing throws.
A store query that fails for reasons outside the tables (a lost connection, say)
is a boolean parameter of the handler. The unique-email violation is not a
parameter: it follows from the table's contents.

Request strings are modelled as `seq<char>`, sequences of Unicode scalar
values; strings holding unpaired surrogates are outside the model (see
"Left out"). `password.length`
counts UTF-16 code units, so the length check uses `Utf16Length`. In that count
a character outside the Basic Multilingual Plane counts as two.

`a@b` is rejected: the pattern needs a `.` after the `@` (`EmailExamples`).

`POST /events` is modelled as written. Its INSERT names six placeholders
(`$1`–`$6`) but binds five values, so every call fails and the handler answers
500 (`Server.Database.CreateEvent`).

## Model

| member | source | states |
|---|---|---|
| `Validators.IsValidEmail` | server.js:18 | The anchored pattern as written: the whole string is a run of `[^\s@]`, an `@`, a run, a `.` and a run, each run non-empty and over `[^\s@]` (`\s` is ECMAScript's whitespace and line-terminator set). Any accepted string has at least five characters, no whitespace, and does not start or end with `@`. |
| `Validators.IsValidEmailIffShape` | server.js:18 | The pattern accepts a string exactly when it has no whitespace, exactly one `@` with at least one character before it, and a `.` after the `@` with at least one character on each side. |
| `Validators.EmailExamples` | server.js:18 | `a@b.com` is accepted. `a@b` (no dot), `ab.com` (no `@`), `a@@b.com` (two `@`) and `a b@c.com` (whitespace) are rejected. |
| `Validators.Utf16Length` | server.js:21 | JavaScript's `length` lies between the number of code points and twice that number. |
| `Validators.Utf16LengthBmp` | server.js:21 | On text made only of Basic Multilingual Plane characters, `length` is the number of characters. |
| `Validators.IsStrongPassword` | server.js:20-25 | A password is strong when `Utf16Length(p) >= 8` (the `length` check, in UTF-16 code units) and one position matches each of `[A-Z]`, `[a-z]`, `[0-9]` and `[!@#$%^&*(),.?":{}\|<>]`. Eight characters with all four classes always suffice. |
| `Validators.StrongPasswordBmp` | server.js:20-25 | On text made only of Basic Multilingual Plane characters, a password is strong exactly when it has at least 8 characters and one each of uppercase, lowercase, digit and special character. |
| `Validators.StrongPasswordExamples` | server.js:20-25 | `Abc123!@` is strong. `abc12345` (no uppercase, no special) and `Ab1!` (too short) are not. `Aa1!` plus two emoji is strong: six characters count as eight code units. |
| `AuthFlow.Present` | server.js:33 | Definition, no contract: JavaScript truthiness of a request field, as in `!name \|\| !email \|\| !password` (and `!email \|\| !password` at line 88). A field is truthy when it is present and not the empty string. |
| `AuthFlow.SignupValidation` | server.js:33-45 | Checks run in this order: presence, then email shape, then password strength. The first failure picks its message, and each message is returned exactly when its check is the first one to fail. |
| `AuthFlow.Signup` | server.js:29-81 | Signup answers 400 exactly when validation fails, and then the table is unchanged. The only statuses are 201, 400 and 500, and every non-201 answer is an error body. |
| `AuthFlow.SetToken` | server.js:70 | The token UPDATE keeps the set of emails and the id counter. |
| `AuthFlow.SetTokenSingleRow` | server.js:70 | Because `user_id` is a key, the UPDATE by id changes exactly the one row with that id. |
| `AuthFlow.SignupCreatesUser` | server.js:48-76 | Signup answers 201 exactly when validation passes, the email is new, and the token is issued and saved. The response then carries the issued token. The table gains exactly one row under that email, with the next id, `is_admin` false, the digest of the password and that same token. |
| `AuthFlow.NewUser` | server.js:52-55 | Definition, no contract: the row the INSERT writes, with the given id, name, email and digest, `is_admin` at its column default false and a null token. |
| `AuthFlow.InsertPreservesWellFormed` | server.js:52-55 | Inserting a row under a new email with the next id keeps emails and ids unique. |
| `AuthFlow.SignupInsertFailure` | server.js:52-79 | A taken email or a store error makes the INSERT fail. The answer is 500 and the table is unchanged: no row is written. |
| `AuthFlow.SignupTokenNotSaved` | server.js:57-79 | When signing or the token UPDATE fails after the INSERT, the answer is 500. The new row stays and its token is still null. |
| `AuthFlow.SignupKeepsExistingUsers` | server.js:50-80 | Under every outcome, no existing row is changed or removed, the only row that can be added is the one for the request's email, and the table stays well formed. |
| `AuthFlow.SignupStoresDigest` | server.js:48-55 | With a sound hasher, a row added by signup holds `hash(password, salt)`, never the plaintext. |
| `AuthFlow.Dashboard` | server.js:113 | The label is `admin-dashboard` exactly when `is_admin` is true, and `user-dashboard` exactly when it is false. |
| `AuthFlow.Signin` | server.js:84-125 | Signin answers 400 when a field is missing or the email is malformed, 500 when the lookup fails, 404 when the email is unknown, 401 when the password does not verify against the stored digest, and 200 otherwise. A 200 carries the token already stored on the row and the dashboard label. Every other answer is an error body with no token. |
| `AuthFlow.SignupThenSignin` | server.js:48-120 | After a successful signup, a signin with the same email and password answers 200 on the user dashboard and returns the token the signup returned. |
| `AuthFlow.SigninAfterUnsavedToken` | server.js:57-120 | After a signup whose token was never saved, the same signin still answers 200, but the token it returns is null. |
| `EventFlow.Rsvp` | server.js:152-163 | RSVP answers 200 exactly for a known id with no store failure. The capacity becomes `N - 1` and every other event is unchanged. An unknown id gives 404 and a store failure gives 500, and in both the table is unchanged. |
| `EventFlow.RsvpPreservesWellFormed` | server.js:155 | RSVP keeps every event under its own id. |
| `EventFlow.RsvpTimesCapacity` | server.js:155 | n RSVPs lower the capacity by exactly n, with no floor, and leave the event's other columns and all other events unchanged. |
| `EventFlow.RsvpOnFullEvent` | server.js:155-159 | An RSVP on an event with capacity 0 succeeds and leaves capacity -1. |
| `Server.Database.Signup` | server.js:29-81 | The handler's response and the new user table are those of `AuthFlow.Signup` on the old table. The event table is untouched and the table invariant is kept. |
| `Server.Database.Signin` | server.js:84-125 | The handler's response is `AuthFlow.Signin` on the current table. The method has no `modifies` clause, so it changes nothing. |
| `Server.Database.CreateEvent` | server.js:138-149 | As written, every call answers 500 `Error creating event` and changes nothing. |
| `Server.Database.Rsvp` | server.js:152-163 | The handler's response and the new event table are those of `EventFlow.Rsvp` on the old table. The user table is untouched. |

## Left out

- Express bootstrap, CORS, body parsing and `app.listen` (server.js:1-15) are HTTP plumbing.
- `GET /events` (server.js:128-135) is a plain read of the whole table with no logic.
- bcrypt's algorithm and work factor are not modelled; salt generation is a parameter. `bcrypt.hash` (server.js:48) runs outside the `try`; it rejects only on non-string input, which the model excludes (request fields are strings or absent, see below). Such a rejection would be unhandled: the request gets no answer, and the process may exit.
- The probabilistic property that a different password does not verify against a digest is not stated. No lemma needs it.
- jsonwebtoken's algorithm, the `JWT_SECRET` environment value, the one-hour expiry and the issue-time claim are hidden inside the `Issuer` parameter.
- The connection pool, the SQL text and async scheduling are replaced by in-memory maps. Concurrent requests are not modelled.
- A failure inside signin's `try` other than the SELECT (a throw from `bcrypt.compare`) has the same outcome, a 500. It is folded into the `selectFails` parameter.
- A failed INSERT does not advance the model's id counter, whereas a PostgreSQL serial column uses up a value. Ids stay unique either way.
- Request fields are strings or absent. JavaScript truthiness and coercion of JSON numbers, booleans, arrays or objects sent as fields are not modelled.
- The RSVP id is taken as an integer. The database's conversion of the path text is not modelled. A non-numeric id is a store error (500), which the `updateFails` parameter covers.
- `capacity` is an unbounded integer. The schema is not part of this model, so the column's width and overflow of `capacity - 1` are not modelled.
- `console.error` logging.
- JavaScript strings are sequences of UTF-16 code units and may hold unpaired surrogates (the JSON body parser accepts `"\uD800"`). Dafny's `char` cannot hold a surrogate, so names, emails and passwords containing one are not modelled.
- SeedAdmin.js is a one-shot script and is not part of this model. The `Database` constructor accepts any well-formed table, including one holding the seeded admin row.
