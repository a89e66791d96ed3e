/** The route handlers as methods over the two tables they read and write.
    Signup, Signin and Rsvp are proved equal to the function of the same name
    in AuthFlow or EventFlow, whose properties are proved there; CreateEvent
    always fails as written. */
module Server {
  import opened Optional
  import opened Services
  import opened Validators
  import opened Http
  import opened AuthFlow
  import opened EventFlow

  class Database {
    var users: map<string, User>
    var nextUserId: nat
    var events: map<int, Event>

    ghost predicate Valid()
      reads this
    {
      WellFormed(UserTable(users, nextUserId)) && WellFormedEvents(events)
    }

    /** The user table as a value. */
    function Users(): UserTable
      reads this
    {
      UserTable(users, nextUserId)
    }

    /** A database holding the given tables (for one, after the admin seed). */
    constructor (t: UserTable, initialEvents: map<int, Event>)
      requires WellFormed(t) && WellFormedEvents(initialEvents)
      ensures Valid()
      ensures Users() == t && events == initialEvents
    {
      users := t.rows;
      nextUserId := t.nextId;
      events := initialEvents;
    }

    /** `POST /signup`: validate, hash, INSERT, sign, UPDATE the token column. */
    method Signup(req: SignupRequest, hasher: Hasher, salt: Salt, issue: Issuer,
                  insertFails: bool, updateFails: bool) returns (r: Response)
      requires Valid()
      modifies this
      ensures Valid()
      ensures (r, Users()) == AuthFlow.Signup(old(Users()), req, hasher, salt, issue, insertFails, updateFails)
      ensures events == old(events)
    {
      SignupKeepsExistingUsers(Users(), req, hasher, salt, issue, insertFails, updateFails);
      if !Present(req.name) || !Present(req.email) || !Present(req.password) {
        return Response(400, Error(MissingFieldsError));
      }
      var name, email, password := req.name.value, req.email.value, req.password.value;
      if !IsValidEmail(email) {
        return Response(400, Error(InvalidEmailError));
      }
      if !IsStrongPassword(password) {
        return Response(400, Error(WeakPasswordError));
      }
      var digest := hasher.hash(password, salt);
      if insertFails || email in users {
        return Response(500, Error(RegisterError));
      }
      var id := nextUserId;
      users := users[email := NewUser(id, name, email, digest)];
      nextUserId := nextUserId + 1;
      var signed := issue(id, false);
      if signed.None? || updateFails {
        return Response(500, Error(RegisterError));
      }
      users := SetToken(Users(), id, signed.value).rows;
      r := Response(201, Registered(RegisteredMessage, signed.value));
    }

    /** `POST /signin`: reads the user table and changes nothing. */
    method Signin(req: SigninRequest, hasher: Hasher, selectFails: bool) returns (r: Response)
      ensures r == AuthFlow.Signin(Users(), req, hasher, selectFails)
    {
      if !Present(req.email) || !Present(req.password) {
        return Response(400, Error(MissingFieldsError));
      }
      var email, password := req.email.value, req.password.value;
      if !IsValidEmail(email) {
        return Response(400, Error(InvalidEmailError));
      }
      if selectFails {
        return Response(500, Error(SigninError));
      }
      if email !in users {
        return Response(404, Error(UserNotFoundError));
      }
      var user := users[email];
      if !hasher.verify(password, user.password) {
        return Response(401, Error(InvalidCredentialsError));
      }
      r := Response(200, SignedIn(SignedInMessage, user.token, Dashboard(user.isAdmin)));
    }

    /** `POST /events`: the INSERT names six placeholders but binds five
        values, so the store rejects every call and the handler answers 500. */
    method CreateEvent(eventName: string, description: string, date: string,
                       location: string, capacity: int) returns (r: Response)
      ensures r == Response(500, Error(CreateEventError))
    {
      r := Response(500, Error(CreateEventError));
    }

    /** `POST /events/rsvp/:id`: decrement one event's capacity in place. */
    method Rsvp(id: int, updateFails: bool) returns (r: Response)
      requires Valid()
      modifies this
      ensures Valid()
      ensures (r, events) == EventFlow.Rsvp(old(events), id, updateFails)
      ensures users == old(users) && nextUserId == old(nextUserId)
    {
      if updateFails {
        return Response(500, Error(RsvpError));
      }
      if id !in events {
        return Response(404, Error(EventNotFoundError));
      }
      events := events[id := events[id].(capacity := events[id].capacity - 1)];
      r := Response(200, Message(RsvpMessage));
    }
  }
}
