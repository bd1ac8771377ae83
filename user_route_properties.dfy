/** Properties of the route handlers that relate several requests, or a
    request and an invariant of the two collections: every document meets
    its schema and the unique indexes hold, and the booking relation stored
    on both sides (`Event.bookedUsers`, `User.registeredEvents`) agrees. */
module UserRouteProperties {
  import opened Wrappers
  import opened Seqs
  import opened Schemas
  import opened Hex
  import opened UserRoute

  predicate NoDuplicates(s: seq<ObjectId>) {
    forall a, b :: 0 <= a < b < |s| ==> s[a] != s[b]
  }

  /** Every document meets its schema, the unique indexes hold, every
      event's organizer is a stored user and nobody is booked twice on one event. */
  predicate TablesValid(db: Db) {
    && (forall j :: 0 <= j < |db.users| ==> UserRequiredFields(db.users[j]))
    && UniqueUserKeys(db.users)
    && (forall i :: 0 <= i < |db.events| ==> EventRequiredFields(db.events[i]))
    && UniqueEventIds(db.events)
    && (forall i :: 0 <= i < |db.events| ==> FindUserById(db.users, db.events[i].organizer).Some?)
    && (forall i :: 0 <= i < |db.events| ==> NoDuplicates(db.events[i].bookedUsers))
  }

  predicate RegisteredFor(u: User, eventId: ObjectId) {
    exists k :: 0 <= k < |u.registeredEvents| && u.registeredEvents[k].eventId == eventId
  }

  predicate UserRegisteredFor(users: seq<User>, userId: ObjectId, eventId: ObjectId) {
    exists j :: 0 <= j < |users| && users[j].id == userId && RegisteredFor(users[j], eventId)
  }

  predicate EventBookedBy(events: seq<Event>, eventId: ObjectId, userId: ObjectId) {
    exists i :: 0 <= i < |events| && events[i].id == eventId && userId in events[i].bookedUsers
  }

  /** The two sides of the booking relation agree: a user is in an event's
      `bookedUsers` exactly when that user has a registration for it. */
  ghost predicate Synced(db: Db) {
    && (forall i, u :: 0 <= i < |db.events| && u in db.events[i].bookedUsers ==>
          UserRegisteredFor(db.users, u, db.events[i].id))
    && (forall j, e :: 0 <= j < |db.users| && RegisteredFor(db.users[j], e) ==>
          EventBookedBy(db.events, e, db.users[j].id))
  }

  /** At most one registration per event in each user's list. */
  predicate OneRegistrationPerEvent(users: seq<User>) {
    forall j, a, b :: 0 <= j < |users| && 0 <= a < b < |users[j].registeredEvents| ==>
      users[j].registeredEvents[a].eventId != users[j].registeredEvents[b].eventId
  }

  ghost predicate Consistent(db: Db) {
    TablesValid(db) && Synced(db) && OneRegistrationPerEvent(db.users)
  }

  lemma EmptyStoreConsistent()
    ensures Consistent(Db([], []))
  {
  }

  // ------------------------------------------------------------------
  // Signup

  lemma SignupPreservesConsistent(db: Db, body: SignupBody, hashed: string, newId: ObjectId)
    requires Consistent(db)
    ensures Consistent(SignupSpec(db, body, hashed, newId).db)
  {
    var r := SignupSpec(db, body, hashed, newId);
    if r.reply.Ok? {
      var u := r.reply.body;
      var users' := db.users + [u];
      assert r.db == Db(users', db.events);
      forall i | 0 <= i < |db.events|
        ensures FindUserById(users', db.events[i].organizer).Some?
      {
        assert FindUserById(db.users, db.events[i].organizer).Some?;
        var w :| 0 <= w < |db.users| && db.users[w].id == db.events[i].organizer;
        assert users'[w] == db.users[w];
      }
      forall i, x | 0 <= i < |db.events| && x in db.events[i].bookedUsers
        ensures UserRegisteredFor(users', x, db.events[i].id)
      {
        assert UserRegisteredFor(db.users, x, db.events[i].id);
        var w :| 0 <= w < |db.users| && db.users[w].id == x && RegisteredFor(db.users[w], db.events[i].id);
        assert users'[w] == db.users[w];
      }
      forall j, e | 0 <= j < |users'| && RegisteredFor(users'[j], e)
        ensures EventBookedBy(db.events, e, users'[j].id)
      {
        if j < |db.users| {
          assert users'[j] == db.users[j];
          assert EventBookedBy(db.events, e, db.users[j].id);
        }
      }
    }
  }

  /** A user just signed up can log in with the same email and password and
      receives a token for exactly that user; `compare` is bcrypt's
      comparison and `hashed` the hash of the password. */
  lemma SignupThenLogin(db: Db, body: SignupBody, hashed: string, newId: ObjectId, compare: (string, string) -> bool)
    requires SignupSpec(db, body, hashed, newId).reply.Ok?
    requires compare(body.password, hashed)
    ensures var s := SignupSpec(db, body, hashed, newId);
            var r := Login(s.db.users, body.email, body.password, compare);
            r.Ok? && r.body.claims == Claims(newId, s.reply.body.role) && r.body.user == s.reply.body
  {
    var s := SignupSpec(db, body, hashed, newId);
    var users' := s.db.users;
    var f := FindUserByEmail(users', body.email);
    var n := |db.users|;
    assert users'[n] == s.reply.body;
    assert forall k :: 0 <= k < n ==> users'[k] == db.users[k];
    assert f == Some(n);
  }

  /** With the unique email index, logging in picks the one user with that
      email and succeeds exactly when bcrypt accepts the password. */
  lemma LoginOfStoredUser(users: seq<User>, k: nat, password: string, compare: (string, string) -> bool)
    requires UniqueUserKeys(users)
    requires k < |users| && users[k].email != "" && password != ""
    ensures var r := Login(users, users[k].email, password, compare);
            && (r.Ok? <==> compare(password, users[k].password))
            && (r.Ok? ==> r.body.user == users[k] && r.body.claims == Claims(users[k].id, users[k].role))
            && (r.Fail? ==> r == Fail(401, "Invalid Password"))
  {
    var f := FindUserByEmail(users, users[k].email);
    assert f == Some(k);
  }

  // ------------------------------------------------------------------
  // Event creation

  lemma CreateEventPreservesConsistent(db: Db, organizer: ObjectId, body: EventBody, newId: ObjectId)
    requires Consistent(db)
    ensures Consistent(CreateEventSpec(db, organizer, body, newId).db)
  {
    var r := CreateEventSpec(db, organizer, body, newId);
    if r.reply.Ok? {
      var e := r.reply.body;
      var events' := db.events + [e];
      assert r.db == Db(db.users, events');
      assert FindUserById(db.users, e.organizer).Some?;
      forall i, x | 0 <= i < |events'| && x in events'[i].bookedUsers
        ensures UserRegisteredFor(db.users, x, events'[i].id)
      {
        assert i < |db.events|;
        assert events'[i] == db.events[i];
        assert UserRegisteredFor(db.users, x, db.events[i].id);
      }
      forall j, ev | 0 <= j < |db.users| && RegisteredFor(db.users[j], ev)
        ensures EventBookedBy(events', ev, db.users[j].id)
      {
        assert EventBookedBy(db.events, ev, db.users[j].id);
        var w :| 0 <= w < |db.events| && db.events[w].id == ev && db.users[j].id in db.events[w].bookedUsers;
        assert events'[w] == db.events[w];
      }
    }
  }

  // ------------------------------------------------------------------
  // Booking

  /** The second duplicate check, even if it compared ids by value, could
      not answer when the two sides agree: a user without a booking on the
      event has no registration for it either. */
  lemma IntendedRegistrationCheckUnreachable(db: Db, i: nat, j: nat)
    requires Consistent(db)
    requires i < |db.events| && j < |db.users|
    requires db.users[j].id !in db.events[i].bookedUsers
    ensures !RegisteredFor(db.users[j], db.events[i].id)
  {
  }

  /** The collections after a successful booking of event `i` by user `j`. */
  function Booked(db: Db, i: nat, j: nat, code: string): (r: Db)
    requires i < |db.events| && j < |db.users|
    ensures |r.users| == |db.users| && |r.events| == |db.events|
  {
    var e := db.events[i];
    var u := db.users[j];
    Db(db.users[j := u.(registeredEvents := u.registeredEvents + [Registration(e.id, code)])],
       db.events[i := e.(bookedUsers := e.bookedUsers + [u.id])])
  }

  /** What was registered or booked before a booking still is after it. */
  lemma BookedKeepsOld(db: Db, i: nat, j: nat, code: string)
    requires i < |db.events| && j < |db.users|
    ensures var d := Booked(db, i, j, code);
            && (forall k :: 0 <= k < |d.users| ==> d.users[k].id == db.users[k].id)
            && (forall k :: 0 <= k < |d.events| ==> d.events[k].id == db.events[k].id && d.events[k].organizer == db.events[k].organizer)
            && (forall k, ev :: 0 <= k < |db.users| && RegisteredFor(db.users[k], ev) ==> RegisteredFor(d.users[k], ev))
            && (forall k, x :: 0 <= k < |db.events| && x in db.events[k].bookedUsers ==> x in d.events[k].bookedUsers)
  {
    var d := Booked(db, i, j, code);
    forall k, ev | 0 <= k < |db.users| && RegisteredFor(db.users[k], ev)
      ensures RegisteredFor(d.users[k], ev)
    {
      var w :| 0 <= w < |db.users[k].registeredEvents| && db.users[k].registeredEvents[w].eventId == ev;
      assert d.users[k].registeredEvents[w] == db.users[k].registeredEvents[w];
    }
  }

  lemma BookedTablesValid(db: Db, i: nat, j: nat, code: string)
    requires TablesValid(db)
    requires i < |db.events| && j < |db.users|
    requires db.users[j].id !in db.events[i].bookedUsers
    ensures TablesValid(Booked(db, i, j, code))
  {
    var d := Booked(db, i, j, code);
    var uid := db.users[j].id;
    BookedKeepsOld(db, i, j, code);
    forall k | 0 <= k < |d.events|
      ensures FindUserById(d.users, d.events[k].organizer).Some?
    {
      var w :| 0 <= w < |db.users| && db.users[w].id == db.events[k].organizer;
      assert d.users[w].id == db.events[k].organizer;
    }
    var b := db.events[i].bookedUsers;
    assert d.events[i].bookedUsers == b + [uid];
    forall x, y | 0 <= x < y < |b| + 1
      ensures (b + [uid])[x] != (b + [uid])[y]
    {
      if y == |b| { assert (b + [uid])[x] == b[x]; assert b[x] in b; }
    }
    assert NoDuplicates(d.events[i].bookedUsers);
  }

  lemma BookedSynced(db: Db, i: nat, j: nat, code: string)
    requires Synced(db)
    requires i < |db.events| && j < |db.users|
    ensures Synced(Booked(db, i, j, code))
  {
    var d := Booked(db, i, j, code);
    var uid, eid := db.users[j].id, db.events[i].id;
    var nr := |db.users[j].registeredEvents|;
    BookedKeepsOld(db, i, j, code);
    assert d.users[j].registeredEvents[nr] == Registration(eid, code);
    forall k, x | 0 <= k < |d.events| && x in d.events[k].bookedUsers
      ensures UserRegisteredFor(d.users, x, d.events[k].id)
    {
      if k == i && x == uid {
        assert RegisteredFor(d.users[j], eid);
      } else {
        assert x in db.events[k].bookedUsers;
        var w :| 0 <= w < |db.users| && db.users[w].id == x && RegisteredFor(db.users[w], db.events[k].id);
        assert RegisteredFor(d.users[w], db.events[k].id);
      }
    }
    forall k, ev | 0 <= k < |d.users| && RegisteredFor(d.users[k], ev)
      ensures EventBookedBy(d.events, ev, d.users[k].id)
    {
      var w :| 0 <= w < |d.users[k].registeredEvents| && d.users[k].registeredEvents[w].eventId == ev;
      if k == j && w == nr {
        assert uid in d.events[i].bookedUsers;
      } else {
        assert d.users[k].registeredEvents[w] == db.users[k].registeredEvents[w];
        assert RegisteredFor(db.users[k], ev);
        var v :| 0 <= v < |db.events| && db.events[v].id == ev && db.users[k].id in db.events[v].bookedUsers;
        assert d.users[k].id in d.events[v].bookedUsers;
      }
    }
  }

  lemma BookedOneRegistrationPerEvent(db: Db, i: nat, j: nat, code: string)
    requires Consistent(db)
    requires i < |db.events| && j < |db.users|
    requires db.users[j].id !in db.events[i].bookedUsers
    ensures OneRegistrationPerEvent(Booked(db, i, j, code).users)
  {
    var d := Booked(db, i, j, code);
    var nr := |db.users[j].registeredEvents|;
    IntendedRegistrationCheckUnreachable(db, i, j);
    forall k, a, b | 0 <= k < |d.users| && 0 <= a < b < |d.users[k].registeredEvents|
      ensures d.users[k].registeredEvents[a].eventId != d.users[k].registeredEvents[b].eventId
    {
      if k == j && b == nr {
        assert d.users[k].registeredEvents[a] == db.users[j].registeredEvents[a];
      } else {
        assert d.users[k].registeredEvents[a] == db.users[k].registeredEvents[a];
        assert d.users[k].registeredEvents[b] == db.users[k].registeredEvents[b];
      }
    }
  }

  lemma BookedPreservesConsistent(db: Db, i: nat, j: nat, code: string)
    requires Consistent(db)
    requires i < |db.events| && j < |db.users|
    requires db.users[j].id !in db.events[i].bookedUsers
    ensures Consistent(Booked(db, i, j, code))
  {
    BookedTablesValid(db, i, j, code);
    BookedSynced(db, i, j, code);
    BookedOneRegistrationPerEvent(db, i, j, code);
  }

  /** A booking by a stored user keeps the collections consistent, whatever
      its outcome. */
  lemma BookPreservesConsistent(db: Db, userId: ObjectId, eventParam: string, castId: Option<ObjectId>, randomBytes: seq<byte>)
    requires |randomBytes| == RegistrationCodeBytes
    requires Consistent(db)
    requires FindUserById(db.users, userId).Some?
    ensures Consistent(BookSpec(db, userId, eventParam, castId, randomBytes).db)
  {
    var r := BookSpec(db, userId, eventParam, castId, randomBytes);
    var w :| 0 <= w < |db.users| && db.users[w].id == userId;
    assert r.reply != Fail(404, "User not found");
    if r.reply.Ok? {
      var i := FindEventById(db.events, castId.value).value;
      var j := FindUserById(db.users, userId).value;
      BookedPreservesConsistent(db, i, j, r.reply.body);
      assert r.db == Booked(db, i, j, r.reply.body);
    }
  }

  /** The 404 after the event was saved leaves a booking with no user behind
      it: the collections are no longer in agreement. */
  lemma BookUserMissingBreaksSync(db: Db, userId: ObjectId, eventParam: string, castId: Option<ObjectId>, randomBytes: seq<byte>)
    requires |randomBytes| == RegistrationCodeBytes
    requires BookSpec(db, userId, eventParam, castId, randomBytes).reply == Fail(404, "User not found")
    ensures !Synced(BookSpec(db, userId, eventParam, castId, randomBytes).db)
  {
    var r := BookSpec(db, userId, eventParam, castId, randomBytes);
    var i := FindEventById(db.events, castId.value).value;
    var b := db.events[i].bookedUsers;
    assert r.db.events[i].bookedUsers == b + [userId];
    assert userId in r.db.events[i].bookedUsers;
    assert !UserRegisteredFor(r.db.users, userId, r.db.events[i].id);
  }

  /** A successful booking adds the user to the event exactly once and one
      registration to the user, and changes no other document. */
  lemma BookAppendsOnceOnEachSide(db: Db, userId: ObjectId, eventParam: string, castId: Option<ObjectId>, randomBytes: seq<byte>)
    requires |randomBytes| == RegistrationCodeBytes
    requires BookSpec(db, userId, eventParam, castId, randomBytes).reply.Ok?
    ensures var r := BookSpec(db, userId, eventParam, castId, randomBytes);
            var i, j := FindEventById(db.events, castId.value).value, FindUserById(db.users, userId).value;
            && |r.db.events[i].bookedUsers| == |db.events[i].bookedUsers| + 1
            // the appended last entry is the only one holding the user
            && (forall k :: 0 <= k < |r.db.events[i].bookedUsers| ==>
                  (r.db.events[i].bookedUsers[k] == userId <==> k == |db.events[i].bookedUsers|))
            && r.db.events[i].bookedUsers == db.events[i].bookedUsers + [userId]
            && |r.db.users[j].registeredEvents| == |db.users[j].registeredEvents| + 1
            && r.db.users[j].registeredEvents == db.users[j].registeredEvents + [Registration(castId.value, r.reply.body)]
            && RegisteredFor(r.db.users[j], castId.value)
            && (forall k :: 0 <= k < |db.events| && k != i ==> r.db.events[k] == db.events[k])
            && (forall k :: 0 <= k < |db.users| && k != j ==> r.db.users[k] == db.users[k])
  {
    var r := BookSpec(db, userId, eventParam, castId, randomBytes);
    var i, j := FindEventById(db.events, castId.value).value, FindUserById(db.users, userId).value;
    var b := db.events[i].bookedUsers;
    assert r.db.events[i].bookedUsers == b + [userId];
    assert forall k :: 0 <= k < |b| ==> b[k] in b;
    var n := |db.users[j].registeredEvents|;
    assert r.db.users[j].registeredEvents[n].eventId == castId.value;
  }

  /** Once a booking has got past the duplicate check (whether it then
      succeeded or hit the missing user), booking the same event again is
      rejected and changes nothing. */
  lemma SecondBookingRejected(db: Db, userId: ObjectId, eventParam: string, castId: Option<ObjectId>,
                              first: seq<byte>, second: seq<byte>)
    requires |first| == RegistrationCodeBytes && |second| == RegistrationCodeBytes
    requires castId.Some? && FindEventById(db.events, castId.value).Some?
    ensures var s1 := BookSpec(db, userId, eventParam, castId, first);
            BookSpec(s1.db, userId, eventParam, castId, second) == Step(Fail(400, "You have already booked this event"), s1.db)
  {
    var s1 := BookSpec(db, userId, eventParam, castId, first);
    var eid := castId.value;
    var i := FindEventById(db.events, eid).value;
    if s1.db != db {
      var e := db.events[i];
      assert s1.db.events == db.events[i := e.(bookedUsers := e.bookedUsers + [userId])];
      FindFirstPointwise(db.events, (x: Event) => x.id == eid, s1.db.events, (x: Event) => x.id == eid);
      assert s1.db.events[i].bookedUsers == e.bookedUsers + [userId];
    }
    assert FindEventById(s1.db.events, eid) == Some(i);
    assert userId in s1.db.events[i].bookedUsers;
  }

  // ------------------------------------------------------------------
  // Queries over a consistent store

  /** `/user/events` answers from the event side; when the sides agree, that
      is exactly the set of events the user holds a registration for. */
  lemma BookedEventsMatchRegistrations(db: Db, j: nat)
    requires Consistent(db)
    requires j < |db.users|
    ensures var r := UserBookedEvents(db.events, db.users[j].id);
            && (r.Ok? ==> forall e :: e in r.body.events <==> e in db.events && RegisteredFor(db.users[j], e.id))
            && (r.Fail? ==> forall e :: e in db.events ==> !RegisteredFor(db.users[j], e.id))
  {
    var uid := db.users[j].id;
    forall e | e in db.events
      ensures uid in e.bookedUsers <==> RegisteredFor(db.users[j], e.id)
    {
      var i :| 0 <= i < |db.events| && db.events[i] == e;
      if uid in e.bookedUsers {
        var w :| 0 <= w < |db.users| && db.users[w].id == uid && RegisteredFor(db.users[w], e.id);
        assert w == j;
      } else if RegisteredFor(db.users[j], e.id) {
        IntendedRegistrationCheckUnreachable(db, i, j);
      }
    }
  }
}
