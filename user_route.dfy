/** The route handlers of the API over the two collections, users and
    events. Each handler that writes is given twice: as a function from the
    collections before the request to the reply and the collections after
    it (the specification), and as a method of `Store` that performs the
    handler's steps in order, with its early returns, and is proved to
    agree with that function. Handlers that only read are functions. */
module UserRoute {
  import opened Wrappers
  import opened Seqs
  import opened Schemas
  import opened Hex

  /** The documents of both collections, each in its natural order. */
  datatype Db = Db(users: seq<User>, events: seq<Event>)

  /** A handler's reply together with the collections after the request. */
  datatype Step<+T> = Step(reply: Reply<T>, db: Db)

  /** `generateRandomHex(6)`: a registration code is made of six random bytes. */
  const RegistrationCodeBytes: nat := 6

  // ------------------------------------------------------------------
  // Document lookups (`findById`, `findOne({ email })`)

  function FindUserById(users: seq<User>, id: ObjectId): (r: Option<nat>)
    ensures r.Some? ==> r.value < |users| && users[r.value].id == id
    ensures r.Some? ==> forall k :: 0 <= k < r.value ==> users[k].id != id
    ensures r.None? <==> forall k :: 0 <= k < |users| ==> users[k].id != id
  {
    FindFirst(users, (u: User) => u.id == id)
  }

  function FindUserByEmail(users: seq<User>, email: string): (r: Option<nat>)
    ensures r.Some? ==> r.value < |users| && users[r.value].email == email
    ensures r.Some? ==> forall k :: 0 <= k < r.value ==> users[k].email != email
    ensures r.None? <==> forall k :: 0 <= k < |users| ==> users[k].email != email
  {
    FindFirst(users, (u: User) => u.email == email)
  }

  function FindEventById(events: seq<Event>, id: ObjectId): (r: Option<nat>)
    ensures r.Some? ==> r.value < |events| && events[r.value].id == id
    ensures r.Some? ==> forall k :: 0 <= k < r.value ==> events[k].id != id
    ensures r.None? <==> forall k :: 0 <= k < |events| ==> events[k].id != id
  {
    FindFirst(events, (e: Event) => e.id == id)
  }

  /** Saving `u` would violate a unique index of the user collection
      (`_id` or `username`; `email` is checked by the handler earlier). */
  predicate UserKeyTaken(users: seq<User>, u: User) {
    exists k :: 0 <= k < |users| && (users[k].id == u.id || users[k].username == u.username)
  }

  // ------------------------------------------------------------------
  // POST /signup

  /** The request body; a missing field is the empty string (both are falsy). */
  datatype SignupBody = SignupBody(username: string, email: string, password: string, role: string)

  /** `hashed` is what `bcrypt.hash(password, salt)` returned; `newId` is the
      ObjectId Mongoose gives the new document. A validation error or a
      duplicate key on save is the 500 of the handler's catch. */
  predicate AllFieldsPresent(body: SignupBody) {
    body.username != "" && body.email != "" && body.password != "" && body.role != ""
  }

  function SignupSpec(db: Db, body: SignupBody, hashed: string, newId: ObjectId): (r: Step<User>)
    ensures r.reply.Fail? ==> r.db == db
    ensures !AllFieldsPresent(body) <==> r.reply == Fail(400, "All fields are required")
    ensures r.reply == Fail(400, "Email already in use") <==>
              AllFieldsPresent(body) && exists k :: 0 <= k < |db.users| && db.users[k].email == body.email
    ensures r.reply.Ok? <==>
              && AllFieldsPresent(body) && hashed != ""
              && (body.role == "user" || body.role == "organizer")
              && forall k :: 0 <= k < |db.users| ==>
                   db.users[k].email != body.email && db.users[k].username != body.username && db.users[k].id != newId
    ensures r.reply.Fail? ==>
              r.reply == Fail(400, "All fields are required") || r.reply == Fail(400, "Email already in use")
              || r.reply == Fail(500, "Server error")
    ensures r.reply.Ok? ==> r.reply.status == 201 && r.db == db.(users := db.users + [r.reply.body])
    ensures r.reply.Ok? ==>
              var u := r.reply.body;
              u.id == newId && u.username == body.username && u.email == body.email && u.password == hashed
              && RoleName(u.role) == body.role && u.registeredEvents == []
  {
    if body.username == "" || body.email == "" || body.password == "" || body.role == "" then
      Step(Fail(400, "All fields are required"), db)
    else if FindUserByEmail(db.users, body.email).Some? then
      Step(Fail(400, "Email already in use"), db)
    else match NewUser(newId, body.username, body.email, hashed, Some(body.role))
      case None => Step(Fail(500, "Server error"), db)
      case Some(u) =>
        if UserKeyTaken(db.users, u) then Step(Fail(500, "Server error"), db)
        else Step(Ok(201, u), db.(users := db.users + [u]))
  }

  // ------------------------------------------------------------------
  // POST /login

  /** The payload signed into the token. */
  datatype Claims = Claims(userId: ObjectId, role: Role)

  /** The token's claims (the token is set as the `token` cookie) and the
      JSON body `{ User, Role }`. */
  datatype LoginBody = LoginBody(claims: Claims, user: User, role: Role)

  /** `compare(plain, hash)` is `bcrypt.compare`. */
  function Login(users: seq<User>, email: string, password: string, compare: (string, string) -> bool): (r: Reply<LoginBody>)
    ensures (email == "" || password == "") <==> r == Fail(400, "Email and password are required")
    ensures r == Fail(401, "Invalid credentials") <==>
              email != "" && password != "" && forall k :: 0 <= k < |users| ==> users[k].email != email
    ensures r == Fail(401, "Invalid Password") ==> exists k :: 0 <= k < |users| && users[k].email == email
    ensures r.Fail? || (r.Ok? && r.status == 200)
    ensures r.Ok? ==> r.body.user in users && r.body.user.email == email && compare(password, r.body.user.password)
    ensures r.Ok? ==> r.body.claims == Claims(r.body.user.id, r.body.user.role) && r.body.role == r.body.user.role
  {
    if email == "" || password == "" then Fail(400, "Email and password are required")
    else match FindUserByEmail(users, email)
      case None => Fail(401, "Invalid credentials")
      case Some(k) =>
        var user := users[k];
        if !compare(password, user.password) then Fail(401, "Invalid Password")
        else Ok(200, LoginBody(Claims(user.id, user.role), user, user.role))
  }

  // ------------------------------------------------------------------
  // POST /events

  /** The request body; each field may be absent. `date` is absent also
      when the given value is not a date. */
  datatype EventBody = EventBody(title: Option<string>, description: Option<string>, date: Option<int>, time: Option<string>)

  /** `organizer` is `req.userId`, attached by the organizer gate. */
  function CreateEventSpec(db: Db, organizer: ObjectId, body: EventBody, newId: ObjectId): (r: Step<Event>)
    ensures r.reply.Fail? ==> r.db == db
    ensures r.reply == Fail(400, "Organizer not found") <==> forall k :: 0 <= k < |db.users| ==> db.users[k].id != organizer
    ensures r.reply.Fail? ==> r.reply == Fail(400, "Organizer not found") || r.reply == Fail(500, "Failed to create event")
    ensures r.reply.Ok? <==>
              && (exists k :: 0 <= k < |db.users| && db.users[k].id == organizer)
              && body.title.Some? && body.title.value != "" && body.date.Some?
              && forall k :: 0 <= k < |db.events| ==> db.events[k].id != newId
    ensures r.reply.Ok? ==> r.reply.status == 201 && r.db == db.(events := db.events + [r.reply.body])
    ensures r.reply.Ok? ==>
              r.reply.body == Event(newId, body.title.value, body.description, body.date.value, body.time, [], organizer)
  {
    if FindUserById(db.users, organizer).None? then
      Step(Fail(400, "Organizer not found"), db)
    else match NewEvent(newId, body.title, body.description, body.date, body.time, organizer)
      case None => Step(Fail(500, "Failed to create event"), db)
      case Some(e) =>
        if FindEventById(db.events, newId).Some? then Step(Fail(500, "Failed to create event"), db)
        else Step(Ok(201, e), db.(events := db.events + [e]))
  }

  // ------------------------------------------------------------------
  // GET /events, GET /eventsbyid

  /** `startOfToday` is the current day at 00:00 in milliseconds. */
  function ListUpcoming(events: seq<Event>, startOfToday: int): (r: Reply<seq<Event>>)
    ensures r.Ok? && r.status == 200
    ensures forall e :: e in r.body <==> e in events && e.date >= startOfToday
    ensures IsSubsequence(r.body, events)
  {
    var p := (e: Event) => e.date >= startOfToday;
    FilterIsSubsequence(events, p);
    Ok(200, Filter(events, p))
  }

  function EventsOfOrganizer(events: seq<Event>, organizer: ObjectId): (r: Reply<seq<Event>>)
    ensures r.Ok? && r.status == 200
    ensures forall e :: e in r.body <==> e in events && e.organizer == organizer
    ensures IsSubsequence(r.body, events)
  {
    var p := (e: Event) => e.organizer == organizer;
    FilterIsSubsequence(events, p);
    Ok(200, Filter(events, p))
  }

  // ------------------------------------------------------------------
  // POST /events/:eventId/book

  /** The two kinds of JavaScript value that meet at the second duplicate
      check: the ObjectId stored in a registration, and a string. */
  datatype JsValue = JsString(chars: string) | JsObjectId(id: ObjectId)

  /** JavaScript strict equality of a value with a string: a string is
      strictly equal to `s` when it has the same characters; an object never
      is, whatever it holds. */
  predicate StrictEqualsString(a: JsValue, s: string)
    ensures StrictEqualsString(a, s) <==> a == JsString(s)
  {
    match a
    case JsString(t) => t == s
    case JsObjectId(_) => false
  }

  /** The search of the user's registrations at UserRoute.js:167: the first
      registration whose stored event id (an ObjectId) is strictly equal to
      the route parameter (a string). */
  function FindRegistrationAsWritten(regs: seq<Registration>, eventParam: string): (r: Option<nat>)
    ensures r.Some? ==> r.value < |regs| && StrictEqualsString(JsObjectId(regs[r.value].eventId), eventParam)
    ensures r.None? <==> forall k :: 0 <= k < |regs| ==> !StrictEqualsString(JsObjectId(regs[k].eventId), eventParam)
  {
    FindFirst(regs, (reg: Registration) => StrictEqualsString(JsObjectId(reg.eventId), eventParam))
  }

  /** Whatever the registrations, the check as written finds nothing: an
      ObjectId is never strictly equal to a string. */
  lemma {:induction false} RegistrationCheckAsWrittenNeverFires(regs: seq<Registration>, eventParam: string)
    ensures FindRegistrationAsWritten(regs, eventParam).None?
  {
    forall k | 0 <= k < |regs|
      ensures !StrictEqualsString(JsObjectId(regs[k].eventId), eventParam)
    {
    }
  }

  /** `userId` is `req.userId`, attached by the user gate; `eventParam` is
      the route parameter and `castId` Mongoose's conversion of it into an
      ObjectId (None when it is not one, and `findById` throws);
      `randomBytes` is what `crypto.randomBytes(6)` returned. */
  function BookSpec(db: Db, userId: ObjectId, eventParam: string, castId: Option<ObjectId>,
                    randomBytes: seq<byte>): (r: Step<string>)
    requires |randomBytes| == RegistrationCodeBytes
    ensures castId.None? ==> r == Step(Fail(500, "Failed to book event"), db)
    ensures castId.Some? && (forall k :: 0 <= k < |db.events| ==> db.events[k].id != castId.value) ==>
              r == Step(Fail(404, "Event not found"), db)
    ensures castId.Some? && FindEventById(db.events, castId.value).Some? &&
            userId in db.events[FindEventById(db.events, castId.value).value].bookedUsers ==>
              r == Step(Fail(400, "You have already booked this event"), db)
    // every error except the mid-sequence 404 leaves both collections as they were
    ensures r.reply.Fail? && r.reply != Fail(404, "User not found") ==> r.db == db
    // the second duplicate check, as written, never answers
    ensures r.reply != Fail(400, "You are already registered for this event")
    ensures r.reply.Ok? <==>
              && castId.Some? && FindEventById(db.events, castId.value).Some?
              && userId !in db.events[FindEventById(db.events, castId.value).value].bookedUsers
              && exists k :: 0 <= k < |db.users| && db.users[k].id == userId
    // the user lookup fails after the event was saved: the event keeps the booking
    ensures castId.Some? && FindEventById(db.events, castId.value).Some?
            && userId !in db.events[FindEventById(db.events, castId.value).value].bookedUsers
            && (forall k :: 0 <= k < |db.users| ==> db.users[k].id != userId) ==>
              r.reply == Fail(404, "User not found")
    ensures r.reply == Fail(404, "User not found") ==>
              && castId.Some? && FindEventById(db.events, castId.value).Some?
              && (forall k :: 0 <= k < |db.users| ==> db.users[k].id != userId)
              && var i := FindEventById(db.events, castId.value).value;
                 r.db == db.(events := db.events[i := db.events[i].(bookedUsers := db.events[i].bookedUsers + [userId])])
    ensures r.reply.Ok? ==>
              var i, j := FindEventById(db.events, castId.value).value, FindUserById(db.users, userId).value;
              && r.reply.status == 200
              && r.db.events == db.events[i := db.events[i].(bookedUsers := db.events[i].bookedUsers + [userId])]
              && r.db.users == db.users[j := db.users[j].(registeredEvents :=
                                 db.users[j].registeredEvents + [Registration(castId.value, r.reply.body)])]
    ensures r.reply.Ok? ==>
              |r.reply.body| == 2 * RegistrationCodeBytes && IsLowerHex(r.reply.body) && HexDecode(r.reply.body) == Some(randomBytes)
  {
    match castId
    case None => Step(Fail(500, "Failed to book event"), db)
    case Some(eventId) =>
      match FindEventById(db.events, eventId)
      case None => Step(Fail(404, "Event not found"), db)
      case Some(i) =>
        var event := db.events[i];
        if userId in event.bookedUsers then
          Step(Fail(400, "You have already booked this event"), db)
        else
          SaveBooking(db, userId, eventParam, eventId, i, randomBytes)
  }

  /** Lines 156-175 of the booking route: the event gets the user and is
      saved, then the user is looked up, checked a second time and given
      the registration. */
  function SaveBooking(db: Db, userId: ObjectId, eventParam: string, eventId: ObjectId, i: nat,
                       randomBytes: seq<byte>): (r: Step<string>)
    requires |randomBytes| == RegistrationCodeBytes
    requires i < |db.events|
    ensures r.reply.Fail? ==> r.reply == Fail(404, "User not found")
    ensures r.reply.Ok? <==> exists k :: 0 <= k < |db.users| && db.users[k].id == userId
    ensures r.db.events == db.events[i := db.events[i].(bookedUsers := db.events[i].bookedUsers + [userId])]
    ensures r.reply.Fail? ==> r.db.users == db.users
    ensures r.reply.Ok? ==>
              var j := FindUserById(db.users, userId).value;
              && r.reply.status == 200
              && r.db.users == db.users[j := db.users[j].(registeredEvents :=
                                 db.users[j].registeredEvents + [Registration(eventId, r.reply.body)])]
    ensures r.reply.Ok? ==>
              |r.reply.body| == 2 * RegistrationCodeBytes && IsLowerHex(r.reply.body) && HexDecode(r.reply.body) == Some(randomBytes)
  {
    var event := db.events[i];
    var saved := db.(events := db.events[i := event.(bookedUsers := event.bookedUsers + [userId])]);
    match FindUserById(saved.users, userId)
    case None => Step(Fail(404, "User not found"), saved)
    case Some(j) =>
      var user := saved.users[j];
      var code := GenerateRandomHex(RegistrationCodeBytes, randomBytes);
      RegistrationCheckAsWrittenNeverFires(user.registeredEvents, eventParam);
      if FindRegistrationAsWritten(user.registeredEvents, eventParam).Some? then
        Step(Fail(400, "You are already registered for this event"), saved)
      else
        var registered := user.(registeredEvents := user.registeredEvents + [Registration(eventId, code)]);
        Step(Ok(200, code), saved.(users := saved.users[j := registered]))
  }

  // ------------------------------------------------------------------
  // GET /user/events, GET /organizer/booked-events

  datatype UserEvents = UserEvents(userId: ObjectId, events: seq<Event>)

  function UserBookedEvents(events: seq<Event>, userId: ObjectId): (r: Reply<UserEvents>)
    ensures r.Fail? <==> forall e :: e in events ==> userId !in e.bookedUsers
    ensures r.Fail? ==> r == Fail(404, "No booked events found")
    ensures r.Ok? ==> r.status == 200 && r.body.userId == userId && r.body.events != []
    ensures r.Ok? ==> forall e :: e in r.body.events <==> e in events && userId in e.bookedUsers
    ensures r.Ok? ==> IsSubsequence(r.body.events, events)
  {
    var p := (e: Event) => userId in e.bookedUsers;
    var found := Filter(events, p);
    FilterIsSubsequence(events, p);
    if found == [] then
      assert forall e :: e in events ==> e !in found;
      Fail(404, "No booked events found")
    else
      assert found[0] in found;
      Ok(200, UserEvents(userId, found))
  }

  datatype BookingSummary = BookingSummary(eventTitle: string, bookedUsers: seq<ObjectId>)

  function Summaries(events: seq<Event>): (r: seq<BookingSummary>)
    ensures |r| == |events|
    ensures forall k :: 0 <= k < |r| ==> r[k] == BookingSummary(events[k].title, events[k].bookedUsers)
  {
    seq(|events|, k requires 0 <= k < |events| => BookingSummary(events[k].title, events[k].bookedUsers))
  }

  function OrganizerBookedEvents(events: seq<Event>, organizer: ObjectId): (r: Reply<seq<BookingSummary>>)
    ensures r.Fail? <==> forall e :: e in events ==> e.organizer != organizer
    ensures r.Fail? ==> r == Fail(404, "No events found for this organizer")
    ensures r.Ok? ==> r.status == 200
    // one summary per event of the organizer, in the order `/eventsbyid` lists them
    ensures r.Ok? ==>
              var found := EventsOfOrganizer(events, organizer).body;
              |r.body| == |found| &&
              forall k :: 0 <= k < |found| ==> r.body[k] == BookingSummary(found[k].title, found[k].bookedUsers)
  {
    var found := Filter(events, (e: Event) => e.organizer == organizer);
    if found == [] then
      assert forall e :: e in events ==> e !in found;
      Fail(404, "No events found for this organizer")
    else
      assert found[0] in found;
      Ok(200, Summaries(found))
  }

  // ------------------------------------------------------------------
  // The handlers that write, as steps on the stored collections

  class Store {
    var users: seq<User>
    var events: seq<Event>

    function State(): Db
      reads this
    {
      Db(users, events)
    }

    constructor ()
      ensures State() == Db([], [])
    {
      users, events := [], [];
    }

    method Signup(body: SignupBody, hashed: string, newId: ObjectId) returns (reply: Reply<User>)
      modifies this
      ensures Step(reply, State()) == SignupSpec(old(State()), body, hashed, newId)
    {
      if body.username == "" || body.email == "" || body.password == "" || body.role == "" {
        return Fail(400, "All fields are required");
      }
      var existingUser := FindUserByEmail(users, body.email);
      if existingUser.Some? {
        return Fail(400, "Email already in use");
      }
      var newUser := NewUser(newId, body.username, body.email, hashed, Some(body.role));
      if newUser.None? || UserKeyTaken(users, newUser.value) {
        return Fail(500, "Server error");
      }
      users := users + [newUser.value];
      reply := Ok(201, newUser.value);
    }

    method CreateEvent(organizer: ObjectId, body: EventBody, newId: ObjectId) returns (reply: Reply<Event>)
      modifies this
      ensures Step(reply, State()) == CreateEventSpec(old(State()), organizer, body, newId)
    {
      var user := FindUserById(users, organizer);
      if user.None? {
        return Fail(400, "Organizer not found");
      }
      var newEvent := NewEvent(newId, body.title, body.description, body.date, body.time, organizer);
      if newEvent.None? || FindEventById(events, newId).Some? {
        return Fail(500, "Failed to create event");
      }
      events := events + [newEvent.value];
      reply := Ok(201, newEvent.value);
    }

    method BookEvent(userId: ObjectId, eventParam: string, castId: Option<ObjectId>, randomBytes: seq<byte>)
      returns (reply: Reply<string>)
      requires |randomBytes| == RegistrationCodeBytes
      modifies this
      ensures Step(reply, State()) == BookSpec(old(State()), userId, eventParam, castId, randomBytes)
    {
      if castId.None? {
        return Fail(500, "Failed to book event");
      }
      var eventId := castId.value;
      var foundEvent := FindEventById(events, eventId);
      if foundEvent.None? {
        return Fail(404, "Event not found");
      }
      var i := foundEvent.value;
      var event := events[i];
      if userId in event.bookedUsers {
        return Fail(400, "You have already booked this event");
      }
      event := event.(bookedUsers := event.bookedUsers + [userId]);
      events := events[i := event];
      var foundUser := FindUserById(users, userId);
      if foundUser.None? {
        return Fail(404, "User not found");
      }
      var j := foundUser.value;
      var user := users[j];
      var registrationCode := GenerateRandomHex(RegistrationCodeBytes, randomBytes);
      if FindRegistrationAsWritten(user.registeredEvents, eventParam).Some? {
        return Fail(400, "You are already registered for this event");
      }
      user := user.(registeredEvents := user.registeredEvents + [Registration(eventId, registrationCode)]);
      users := users[j := user];
      reply := Ok(200, registrationCode);
    }
  }
}
