# EventManagementApp in Dafny

This is a model of an event-booking web application. The back end is written in Express and MongoDB, and the front end in React.

- **Users.** A user signs up as a `user` or an `organizer`, then logs in and receives a JWT cookie.
- **Organizers** create events. They can list their own events and see who booked each one.
- **Booking.** A plain user books an event through `POST /events/:eventId/book`, behind the `checkUser` middleware. A booking adds the user's id to the event's `bookedUsers`. It also adds an `{eventId, registrationCode}` entry to the user's `registeredEvents`.
- **Registration code.** It is 6 random bytes written as 12 lower-case hex characters.
- **Browser checks.** The React pages validate their forms before sending them. The events page filters by a chosen day. The bookings page tags each event Active or Expired and sorts the list latest first.

The model has these parts:

- **Schemas** (`schemas.dfy`). Both schemas are datatypes, with their `required` fields, the role enum and its default, and their `unique` indexes.
- **Route handlers** (`user_route.dfy`). Each handler that writes is a specification function on the two collections (`Db`). Each returns a `Step`: the HTTP reply and the new collections. The `Store` class holds both collections as fields. Its methods perform the same early-return steps in place, and each method is proved equal to its specification function.
- **Read-only routes** are functions.
- **bcrypt, JWT and `crypto.randomBytes`** are parameters:
  - `hashed` is the hash returned by `bcrypt.hash`;
  - `compare` plays the role of `bcrypt.compare`, and `verify` that of `jwt.verify`;
  - `randomBytes` is the 6 bytes of randomness.
- **The Mongoose cast of `:eventId`** is the parameter `castId`. `None` models the cast error, which answers 500.
- **Invariants** (`user_route_properties.dfy`). These are the schema invariants, and `Synced`: a user id is in an event's `bookedUsers` exactly when that user holds a registration for the event. The lemmas prove which handlers preserve them. They also prove that a booking appends exactly once on each side, and that the one failure in the middle of a booking breaks `Synced`.
- **The auth gate** (`check_user.dfy`). `checkUser` is a decision function with four outcomes, plus a method that writes `req.userId`. `booking_flow.dfy` composes the gate with the booking handler.
- **Front end** (`forms.dfy`, `sign_up_page.dfy`, `login_page.dfy`, `organizer_dashboard.dfy`, `home.dfy`, `booked_events.dfy`):
  - A form is a `map<string, string>`. An absent key reads as `""`.
  - The email regular expression `/^[^\s@]+@[^\s@]+\.[^\s@]+$/` is written as a predicate. A lemma proves it equivalent to a plain description of the strings it accepts.
  - Each `validate` is a method that fills its error map step by step, as the source does.

Modelling conventions:

- **ObjectIds** are natural numbers.
- **Dates** are integer milliseconds since the epoch.
- **Collections** are sequences in insertion order. `findOne`/`findById` return the first match.
- **Integrity.**
  - A Mongoose validation failure, a duplicate key on the `unique` username index, and an `_id` collision all raise an error. The handler's `catch` turns that error into a 500, and the model does the same.
  - Errors come before any write, except the mid-booking 404. So that 404 is the only failure that changes the collections.
- **Login failures** keep the two messages of the code: 'Invalid credentials' for an unknown email (UserRoute.js:59) and 'Invalid Password' for a wrong password (UserRoute.js:64).

## Model

| member | source | states |
|---|---|---|
| Schemas.RoleName | BackEnd/my-new-project/Models/User.js:11 | a stored role is one of the two enum strings 'user' and 'organizer' |
| Schemas.CastRole | BackEnd/my-new-project/Models/User.js:11 | an absent role defaults to 'user'; a given role is accepted exactly when it is 'user' or 'organizer', and then the stored role is the one named |
| Schemas.NewUser | BackEnd/my-new-project/Models/User.js:3-18 | a user document is created exactly when username, email and password are non-empty and the role passes the enum; it then has exactly the given fields and an empty `registeredEvents` list |
| Schemas.NewEvent | BackEnd/my-new-project/Models/Event.js:3-10 | an event document is created exactly when the title is present and non-empty and the date is present; it has the given fields, the optional description and time as given, and an empty `bookedUsers` list |
| Schemas.UserRequiredFields | BackEnd/my-new-project/Models/User.js:4-10 | the `required` option of username, email and password: each is a non-empty string |
| Schemas.EventRequiredFields | BackEnd/my-new-project/Models/Event.js:4 | the `required` option of the title: a non-empty string (the date and the organizer are present by their types) |
| Schemas.UniqueUserKeys | BackEnd/my-new-project/Models/User.js:4-8 | the `unique` indexes on username and email, and the `_id` index: each of the three keys identifies at most one stored user |
| Schemas.UniqueEventIds | BackEnd/my-new-project/Models/Event.js:3-10 | the `_id` index of the event collection: no two stored events share an id |
| Hex.HexEncode | BackEnd/my-new-project/Routes/UserRoute.js:13 | `toString('hex')` produces two lower-case hex digits per byte |
| Hex.HexDecode | BackEnd/my-new-project/Routes/UserRoute.js:13 | the partner of the hex encoding: decoding gives one byte for every two characters, or fails |
| Hex.DecodeEncode | BackEnd/my-new-project/Routes/UserRoute.js:13 | decoding the hex encoding of any bytes gives the same bytes back |
| Hex.LowerHexDecodes | BackEnd/my-new-project/Routes/UserRoute.js:13 | every string of even length made only of lower-case hex digits decodes |
| Hex.EncodeDecode | BackEnd/my-new-project/Routes/UserRoute.js:13 | lower-case hex of even length decodes, and encoding the result gives the same string back |
| Hex.DigitValueOfDigitFor | BackEnd/my-new-project/Routes/UserRoute.js:13 | each nibble value is recovered from its hex digit |
| Hex.GenerateRandomHex | BackEnd/my-new-project/Routes/UserRoute.js:12-14 | for `length` random bytes, the code has `2*length` lower-case hex characters and decodes back to those bytes |
| UserRoute.FindUserById | BackEnd/my-new-project/Routes/UserRoute.js:96 | `User.findById` gives the position of the first stored user with that id, or none exactly when no stored user has it (also at line 160, in the booking route) |
| UserRoute.FindUserByEmail | BackEnd/my-new-project/Routes/UserRoute.js:27 | `User.findOne({ email })` gives the position of the first stored user with that email, or none exactly when no stored user has it (also at line 57) |
| UserRoute.FindEventById | BackEnd/my-new-project/Routes/UserRoute.js:147 | `Event.findById` gives the position of the first stored event with that id, or none exactly when no stored event has it |
| UserRoute.UserKeyTaken | BackEnd/my-new-project/Routes/UserRoute.js:38 | `newUser.save()` fails with a duplicate key exactly when a stored user already has the new document's `_id` or username |
| UserRoute.SignupSpec | BackEnd/my-new-project/Routes/UserRoute.js:17-45 | a missing field gives 400 'All fields are required'; when all fields are present, a stored email gives 400 'Email already in use'; any other failure is 500 'Server error'. Every failure leaves the collections unchanged. Success happens exactly when the fields are present, the role is valid, and the email, username and id are all new; it returns 201 and appends exactly one user, whose password is the hash (not the plaintext) and whose registrations are empty |
| UserRoute.Login | BackEnd/my-new-project/Routes/UserRoute.js:48-85 | a missing email or password gives 400; when both are present, an email no user has gives 401 'Invalid credentials'; 'Invalid Password' happens only when the email is stored. On 200 the user is the stored one with that email, the password matched, and the token claims are exactly that user's id and stored role |
| UserRoute.CreateEventSpec | BackEnd/my-new-project/Routes/UserRoute.js:88-114 | an acting id that is not a stored user gives 400 'Organizer not found'; the only other failure is 500 'Failed to create event' (missing title or date, or an id collision). Failures change nothing. On 201 exactly one event is appended: the body's fields, the acting id as organizer, and no bookings |
| UserRoute.ListUpcoming | BackEnd/my-new-project/Routes/UserRoute.js:116-128 | always 200; an event is listed exactly when it is stored and its date is at or after the start of today, in stored order |
| UserRoute.EventsOfOrganizer | BackEnd/my-new-project/Routes/UserRoute.js:131-139 | always 200; an event is listed exactly when it is stored and its organizer is the acting id, in stored order |
| UserRoute.StrictEqualsString | BackEnd/my-new-project/Routes/UserRoute.js:167 | `===` with a string holds exactly for a string value with the same characters, never for an ObjectId |
| UserRoute.FindRegistrationAsWritten | BackEnd/my-new-project/Routes/UserRoute.js:167 | the `find` over the user's registrations returns a registration whose stored event id is strictly equal to the route string, or none exactly when no registration's is |
| UserRoute.RegistrationCheckAsWrittenNeverFires | BackEnd/my-new-project/Routes/UserRoute.js:166-170 | the second duplicate check compares a stored ObjectId with the route string using `===`, so it finds nothing for any registrations |
| UserRoute.BookSpec | BackEnd/my-new-project/Routes/UserRoute.js:141-180 | a cast failure gives 500; an unknown event gives 404 and changes nothing; a user already in `bookedUsers` gives 400 'You have already booked this event' and changes nothing. The check at line 167 never answers. When the user is missing after the event is saved, the reply is 404 'User not found', the event keeps the new booking, and the users are unchanged. Success happens exactly when the event exists, is not booked by the user, and the user exists; then both sides are appended and the code is 12 lower-case hex characters encoding the random bytes |
| UserRoute.SaveBooking | BackEnd/my-new-project/Routes/UserRoute.js:155-175 | after the duplicate check, the event is saved with the user appended whatever follows. The only failure is 404 'User not found', which happens exactly when the user is not stored and leaves the users unchanged. Otherwise the reply is 200 and the user's registration for the event carries the returned 12-character code |
| UserRoute.UserBookedEvents | BackEnd/my-new-project/Routes/UserRoute.js:183-199 | 404 'No booked events found' exactly when no event has the user in `bookedUsers`; otherwise 200 with the user id and exactly those events, in stored order |
| UserRoute.Summaries | BackEnd/my-new-project/Routes/UserRoute.js:215-218 | the `events.map` projection gives one `{eventTitle, bookedUsers}` per event, same count, same order, each taken from the event at the same position |
| UserRoute.OrganizerBookedEvents | BackEnd/my-new-project/Routes/UserRoute.js:202-225 | 404 'No events found for this organizer' exactly when the organizer has no events; otherwise one `{eventTitle, bookedUsers}` summary per organizer event, in the same count and order |
| UserRoute.Store.constructor | BackEnd/my-new-project/Routes/UserRoute.js:1-9 | the store starts with no users and no events |
| UserRoute.Store.Signup | BackEnd/my-new-project/Routes/UserRoute.js:17-45 | the in-place signup yields exactly the reply and collections of `SignupSpec` |
| UserRoute.Store.CreateEvent | BackEnd/my-new-project/Routes/UserRoute.js:88-114 | the in-place event creation yields exactly the reply and collections of `CreateEventSpec` |
| UserRoute.Store.BookEvent | BackEnd/my-new-project/Routes/UserRoute.js:141-180 | the in-place booking (push, save, look up, push, save) yields exactly the reply and collections of `BookSpec` |
| UserRouteProperties.EmptyStoreConsistent | BackEnd/my-new-project/Models/User.js:3-18 | the empty store meets the schema invariants and the booking relation is synchronized |
| UserRouteProperties.SignupPreservesConsistent | BackEnd/my-new-project/Routes/UserRoute.js:17-45 | signup keeps the schema invariants (required fields, unique email, username and id) and the booking relation synchronized |
| UserRouteProperties.SignupThenLogin | BackEnd/my-new-project/Routes/UserRoute.js:48-71 | after a successful signup, logging in with the same email and the password that matches the hash succeeds, for the created user, with claims made of its id and role |
| UserRouteProperties.LoginOfStoredUser | BackEnd/my-new-project/Routes/UserRoute.js:57-71 | with unique emails, logging in with a stored user's email succeeds exactly when `compare` accepts that user's hash, and then yields that user |
| UserRouteProperties.CreateEventPreservesConsistent | BackEnd/my-new-project/Routes/UserRoute.js:88-114 | event creation keeps the schema invariants and the synchronized booking relation |
| UserRouteProperties.IntendedRegistrationCheckUnreachable | BackEnd/my-new-project/Routes/UserRoute.js:166-170 | even compared by id, the second duplicate check cannot fire: in a consistent store a user not in the event's `bookedUsers` has no registration for it |
| UserRouteProperties.Booked | BackEnd/my-new-project/Routes/UserRoute.js:156-173 | the two-sided update of a booking keeps the number of users and events |
| UserRouteProperties.BookedKeepsOld | BackEnd/my-new-project/Routes/UserRoute.js:156-173 | the two-sided update keeps every earlier booking and registration |
| UserRouteProperties.BookedTablesValid | BackEnd/my-new-project/Models/Event.js:8 | the two-sided update keeps required fields and unique ids, and a `bookedUsers` list with no repeats |
| UserRouteProperties.BookedSynced | BackEnd/my-new-project/Routes/UserRoute.js:156-173 | the two-sided update keeps the booking relation synchronized |
| UserRouteProperties.BookedOneRegistrationPerEvent | BackEnd/my-new-project/Models/User.js:12-17 | the two-sided update keeps at most one registration per event for each user |
| UserRouteProperties.BookedPreservesConsistent | BackEnd/my-new-project/Routes/UserRoute.js:156-173 | the two-sided update of a fresh booking preserves the whole consistency invariant |
| UserRouteProperties.BookPreservesConsistent | BackEnd/my-new-project/Routes/UserRoute.js:141-180 | for a stored user, every outcome of the booking handler keeps the store consistent |
| UserRouteProperties.BookUserMissingBreaksSync | BackEnd/my-new-project/Routes/UserRoute.js:156-161 | the 404 'User not found' leaves a one-sided relation: the event lists a booking that no user holds |
| UserRouteProperties.BookAppendsOnceOnEachSide | BackEnd/my-new-project/Routes/UserRoute.js:156-175 | a successful booking grows the event's `bookedUsers` by exactly the user id, which occurs nowhere else in the list. It grows the user's `registeredEvents` by exactly one entry at the end, `{eventId, registrationCode}` with the returned code, keeping the old entries. Every other document is unchanged |
| UserRouteProperties.SecondBookingRejected | BackEnd/my-new-project/Routes/UserRoute.js:150-153 | after a successful booking, booking the same event again gives 400 'You have already booked this event' and changes nothing |
| UserRouteProperties.BookedEventsMatchRegistrations | BackEnd/my-new-project/Routes/UserRoute.js:183-194 | in a consistent store, the events `/user/events` returns are exactly those the user holds a registration for |
| CheckUser.DenialOf | BackEnd/my-new-project/Middlewares/checkUser.js:8-21 | no token gives 401 'Access denied, no token provided', an invalid token gives 400 'Invalid token', and no stored user with role 'user' gives 403 ' Not a User' (with its leading space); each is an error reply |
| CheckUser.Gate | BackEnd/my-new-project/Middlewares/checkUser.js:5-22 | no token, exactly when the cookie is empty; an invalid token, exactly when verification fails (the user lookup cannot fail in the model); 'Not a User', exactly when the decoded id is not a stored user whose stored role is 'user'; admitted otherwise, with the decoded id of such a stored user |
| CheckUser.GateIgnoresRoleClaim | BackEnd/my-new-project/Middlewares/checkUser.js:13-14 | the decision depends only on the decoded user id, not on the token's role claim |
| CheckUser.AdmittedIsStoredUser | BackEnd/my-new-project/Middlewares/checkUser.js:13-18 | a token for a stored user is admitted exactly when that user's stored role is 'user', and then the attached id is that user's id |
| CheckUser.Request.constructor | BackEnd/my-new-project/Middlewares/checkUser.js:7 | a request carries its cookie token and no user id yet |
| CheckUser.CheckUser | BackEnd/my-new-project/Middlewares/checkUser.js:4-23 | when admitted, `req.userId` is set to the stored user's id and `next` is called once; otherwise the denial's status and message are answered, `next` is not called, and `req.userId` is untouched |
| BookingFlow.GatedBook | BackEnd/my-new-project/Routes/UserRoute.js:141 | the booking route answers the gate's denial without touching the store, or runs the handler for the admitted user |
| BookingFlow.GatedBookKeepsConsistent | BackEnd/my-new-project/Routes/UserRoute.js:141-180 | behind `checkUser` the 404 'User not found' cannot happen, and every request keeps a consistent store consistent |
| Forms.Field | FrontEnd/EventManagement/src/Components/SignUpPage.jsx:21-25 | reading an absent form field gives the empty string |
| Forms.UpdateField | FrontEnd/EventManagement/src/Components/SignUpPage.jsx:44-49 | `handleChange`: the named field takes the new value and every other field keeps its value (the same update as LoginPage.jsx:45-50 and OrganizerDashboard.jsx:71-73) |
| Forms.IsJsWhitespace | FrontEnd/EventManagement/src/Components/SignUpPage.jsx:19 | the characters of the class `\s` of a JavaScript regular expression; neither '@' nor '.' is one of them |
| Forms.EmailPattern | FrontEnd/EventManagement/src/Components/SignUpPage.jsx:19 | `emailPattern.test` (also LoginPage.jsx:17): the whole string is a non-empty run without '@' or whitespace, '@', another such run, '.', and a last such run; a match has at least 5 characters and starts and ends with such a character |
| Forms.EmailPatternIsWellShaped | FrontEnd/EventManagement/src/Components/SignUpPage.jsx:19 | a string matching the email pattern has exactly one '@', a non-empty local part, no whitespace, and a '.' strictly inside the domain |
| Forms.WellShapedIsEmailPattern | FrontEnd/EventManagement/src/Components/SignUpPage.jsx:19 | every such string matches the email pattern |
| Forms.EmailPatternShape | FrontEnd/EventManagement/src/Components/SignUpPage.jsx:19 | the pattern accepts a string if and only if it is so shaped |
| Forms.EmptyIsNotAnEmail | FrontEnd/EventManagement/src/Components/SignUpPage.jsx:22-23 | the empty string fails the pattern, so 'Email is required' is the only email error for an empty field |
| SignUpPage.InitialRoleIsUser | FrontEnd/EventManagement/src/Components/SignUpPage.jsx:8-13 | the form starts with empty text fields and role 'user' |
| SignUpPage.Validate | FrontEnd/EventManagement/src/Components/SignUpPage.jsx:17-29 | errors are only for username, email and password, and role is never checked. An empty username gives 'Username is required'. An email error appears exactly when the pattern fails: 'Email is required' when empty, else 'Invalid email format'. A password error appears exactly when it has fewer than 6 characters: 'Password is required' when empty, else the length message. The result is true exactly when no error was recorded, that is, when all three rules pass |
| LoginPage.Validate | FrontEnd/EventManagement/src/Components/LoginPage.jsx:15-25 | the same email rules as signup; a password error 'Password is required' appears exactly when it is empty, with no length rule; true exactly when no error was recorded |
| LoginPage.NextRoute | FrontEnd/EventManagement/src/Components/LoginPage.jsx:34-38 | the page goes to '/organizer/dashboard' exactly when the returned role is 'organizer', and otherwise to '/' |
| LoginPage.LoginRoutesByStoredRole | FrontEnd/EventManagement/src/Components/LoginPage.jsx:34-38 | after a successful login the dashboard is chosen exactly when the logged-in user's stored role is organizer |
| OrganizerDashboard.Validate | FrontEnd/EventManagement/src/Components/OrganizerDashboard.jsx:48-55 | title, date and time each get 'Required' exactly when empty; description is never checked; true exactly when all three are filled |
| OrganizerDashboard.HandleSubmit | FrontEnd/EventManagement/src/Components/OrganizerDashboard.jsx:57-69 | the errors are those of `validate`: 'Required' on exactly the empty ones of title, date and time, and no other key. After a valid form and a created event, the list is the old list with that event appended and the form is four empty strings. Otherwise the list and the form are unchanged |
| OrganizerDashboard.HandleDateChange | FrontEnd/EventManagement/src/Components/OrganizerDashboard.jsx:75-79 | the selected date is the picked one, the form's date is its formatting, and title, description, time and the event list are unchanged |
| OrganizerDashboard.ResetFormIsEmpty | FrontEnd/EventManagement/src/Components/OrganizerDashboard.jsx:64 | the reset form has exactly the four fields, all empty, so it does not pass validation |
| Home.FilteredEvents | FrontEnd/EventManagement/src/Components/Home.jsx:42-44 | with no selected date the list is unchanged; with one, an event is kept exactly when it falls on the same local day; the result is an order-preserving subsequence |
| Home.LocalDay | FrontEnd/EventManagement/src/Components/Home.jsx:43 | the local day compared through `toDateString()` is the whole number of days before the instant shifted by the local offset: the day starts at or before it and the next day after it |
| Home.SameDayBounds | FrontEnd/EventManagement/src/Components/Home.jsx:43 | two instants on the same local day are less than 24 hours apart |
| BookedEvents.GetStatus | FrontEnd/EventManagement/src/Components/BookedEvents.jsx:38-42 | 'Active' exactly when the event date is strictly after now; an equal date is 'Expired' |
| BookedEvents.WithStatus | FrontEnd/EventManagement/src/Components/BookedEvents.jsx:19-22 | every event gets its status, and the event itself is unchanged and in place |
| BookedEvents.Insert | FrontEnd/EventManagement/src/Components/BookedEvents.jsx:23 | inserting into a latest-first list gives a latest-first list with one more element, a permutation of the old list plus the new element |
| BookedEvents.SortLatestFirst | FrontEnd/EventManagement/src/Components/BookedEvents.jsx:23 | the sort gives a list ordered by non-increasing date that is a permutation of its input |
| BookedEvents.FetchedEvents | FrontEnd/EventManagement/src/Components/BookedEvents.jsx:18-23 | the stored list has one entry per server event, ordered latest first, a permutation of the annotated list, each with its event's status |
| Seqs.FindFirst | BackEnd/my-new-project/Routes/UserRoute.js:27 | `findOne` picks the first element matching the query, or none exactly when none matches |
| Seqs.Filter | BackEnd/my-new-project/Routes/UserRoute.js:122 | `find` with a condition keeps exactly the elements that satisfy it |
| Seqs.FilterIsSubsequence | BackEnd/my-new-project/Routes/UserRoute.js:122 | the kept elements keep their stored order |

## Left out

- Persistence, connection setup and `populate('organizer', 'username')`. The store is the two in-memory sequences, and `GET /events` returns the organizer id rather than the populated username. Server.js is not part of this model.
- The 500 answers that come from a database or network failure. The model keeps only the 500s that the handlers' own inputs can cause: the cast, validation and duplicate keys.
- CheckUser.Gate: a failure of the user lookup (a database error, or a `userId` claim that is not an ObjectId, which anyone can sign since the secret is the literal 'JWT_SECRET') is caught by the same `catch` as a failed verification and answered 400 'Invalid token' (checkUser.js:13, 20-21). In the model the claims always carry an ObjectId and the lookup cannot fail, so this path is not modelled.
- Concurrency. Each handler runs as one sequential step, so the race between the check at line 151 of UserRoute.js and the two saves is not modelled.
- `checkOrganizerRole` is not part of this model. `CreateEventSpec`, `EventsOfOrganizer` and `OrganizerBookedEvents` take the acting organizer id as given, and make no requirement of it.
- bcrypt, JWT signing and verification, token expiry, the secret, and `crypto.randomBytes` become parameters:
  - `hashed`, for the value returned by `bcrypt.hash`;
  - `compare`, for `bcrypt.compare`;
  - `verify`, for `jwt.verify`: it yields the claims or fails, and an expired token counts as a failure;
  - `randomBytes`, for the random bytes.
- Cookies, the `Set-Cookie` header, the response `message` of successful calls, logging, toasts, rendering, axios, and `localStorage`.
- Dates. JS `Date`, time zones and `setHours` are not modelled:
  - Instants are integer milliseconds.
  - The start of today is a parameter of `ListUpcoming`.
  - The local day of `toDateString()` is computed with a fixed UTC offset, so daylight-saving changes are not modelled.
  - The `toLocaleDateString('en-CA')` rendering is the parameter `format`.
- Strings are sequences of Unicode characters. JavaScript's `length`, used by the 6-character password rule, counts UTF-16 code units, so the two differ for characters outside the Basic Multilingual Plane.
- `OrganizerDashboard.HandleSubmit`: the server's answer to the request is the parameter `created`. The event list bound to the stale closure and the asynchronous state updates are not modelled.
- `BookedEvents.SortLatestFirst`: does not prove stability. JavaScript's `Array.prototype.sort` keeps equal dates in server order, and the model states only the order and the permutation.
- Navbar.jsx, App.jsx and HomePage.jsx hold routing and display logic only, and are not part of this model.
