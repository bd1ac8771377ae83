/** The two document schemas: users and events. A document is a value; the
    store module holds the collections. Mongoose's `required` validator
    rejects a missing value and, for strings, the empty string; the
    `unique` indexes are stated as properties of a whole collection. */
module Schemas {
  import opened Wrappers

  /** A MongoDB ObjectId, abstracted to a number. */
  type ObjectId = nat

  /** The `role` enum of the user schema. */
  datatype Role = UserRole | OrganizerRole

  /** The stored string of a role. */
  function RoleName(r: Role): (name: string)
    ensures name == "user" || name == "organizer"
  {
    match r
    case UserRole => "user"
    case OrganizerRole => "organizer"
  }

  /** What saving a `role` value yields: the default 'user' when it is
      absent, the enum member it names, or a validation failure. */
  function CastRole(value: Option<string>): (r: Option<Role>)
    ensures value.None? ==> r == Some(UserRole)
    ensures value.Some? ==> (r.Some? <==> value.value == "user" || value.value == "organizer")
    ensures value.Some? && r.Some? ==> RoleName(r.value) == value.value
  {
    match value
    case None => Some(UserRole)
    case Some(s) =>
      if s == "user" then Some(UserRole)
      else if s == "organizer" then Some(OrganizerRole)
      else None
  }

  /** One entry of a user's `registeredEvents` list. */
  datatype Registration = Registration(eventId: ObjectId, registrationCode: string)

  datatype User = User(
    id: ObjectId,
    username: string,
    email: string,
    password: string,
    role: Role,
    registeredEvents: seq<Registration>)

  datatype Event = Event(
    id: ObjectId,
    title: string,
    description: Option<string>,
    date: int,             // milliseconds since the epoch
    time: Option<string>,
    bookedUsers: seq<ObjectId>,
    organizer: ObjectId)

  /** The `required` fields of a user document are present and non-empty. */
  predicate UserRequiredFields(u: User) {
    u.username != "" && u.email != "" && u.password != ""
  }

  /** The `required` string field of an event document is non-empty (the
      date and the organizer are required too; their types make them present). */
  predicate EventRequiredFields(e: Event) {
    e.title != ""
  }

  /** `new User({...}).save()` on the schema: the document, or None when
      validation fails. */
  function NewUser(id: ObjectId, username: string, email: string, password: string, role: Option<string>): (r: Option<User>)
    ensures r.Some? <==> username != "" && email != "" && password != "" && CastRole(role).Some?
    ensures r.Some? ==> UserRequiredFields(r.value)
    ensures r.Some? ==> r.value.id == id && r.value.username == username && r.value.email == email
                        && r.value.password == password && Some(r.value.role) == CastRole(role)
    ensures r.Some? ==> r.value.registeredEvents == []
  {
    if username == "" || email == "" || password == "" then None
    else match CastRole(role)
      case None => None
      case Some(ro) => Some(User(id, username, email, password, ro, []))
  }

  /** `new Event({...}).save()` on the schema: the document, or None when
      the title is missing or empty or the date is missing. `bookedUsers`
      starts empty; `description` and `time` are stored as given. */
  function NewEvent(id: ObjectId, title: Option<string>, description: Option<string>, date: Option<int>,
                    time: Option<string>, organizer: ObjectId): (r: Option<Event>)
    ensures r.Some? <==> title.Some? && title.value != "" && date.Some?
    ensures r.Some? ==> EventRequiredFields(r.value)
    ensures r.Some? ==> r.value == Event(id, title.value, description, date.value, time, [], organizer)
  {
    match (title, date)
    case (Some(t), Some(d)) => if t == "" then None else Some(Event(id, t, description, d, time, [], organizer))
    case _ => None
  }

  /** The `unique` indexes of the user collection, and that of `_id`. */
  predicate UniqueUserKeys(users: seq<User>)
    // each of the three keys identifies at most one stored user
    ensures UniqueUserKeys(users) ==>
              forall i, j :: 0 <= i < |users| && 0 <= j < |users| && i != j ==>
                users[i].id != users[j].id && users[i].email != users[j].email && users[i].username != users[j].username
  {
    forall i, j :: 0 <= i < j < |users| ==>
      users[i].id != users[j].id && users[i].email != users[j].email && users[i].username != users[j].username
  }

  /** The `_id` index of the event collection. */
  predicate UniqueEventIds(events: seq<Event>)
    ensures UniqueEventIds(events) ==>
              forall i, j :: 0 <= i < |events| && 0 <= j < |events| && i != j ==> events[i].id != events[j].id
  {
    forall i, j :: 0 <= i < j < |events| ==> events[i].id != events[j].id
  }
}
