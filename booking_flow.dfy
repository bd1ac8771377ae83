/** The booking route as mounted: `checkUser` runs first and hands its
    `req.userId` to the booking handler. */
module BookingFlow {
  import opened Wrappers
  import opened Schemas
  import opened Hex
  import opened UserRoute
  import opened UserRouteProperties
  import opened CheckUser

  /** `POST /events/:eventId/book` behind `checkUser`: a denial of the gate,
      or the handler's step for the admitted user. */
  function GatedBook(db: Db, token: string, verify: string -> Option<Claims>, eventParam: string,
                     castId: Option<ObjectId>, randomBytes: seq<byte>): (r: Step<string>)
    requires |randomBytes| == RegistrationCodeBytes
    ensures !Gate(token, verify, db.users).Admitted? ==>
              r == Step(DenialOf(Gate(token, verify, db.users)), db)
    ensures Gate(token, verify, db.users).Admitted? ==>
              r == BookSpec(db, Gate(token, verify, db.users).userId, eventParam, castId, randomBytes)
  {
    var o := Gate(token, verify, db.users);
    if o.Admitted? then BookSpec(db, o.userId, eventParam, castId, randomBytes)
    else Step(DenialOf(o), db)
  }

  /** Behind the gate the booking handler always finds its user, so the
      one-sided 404 cannot happen and the consistency of the two tables is
      kept by every request. */
  lemma GatedBookKeepsConsistent(db: Db, token: string, verify: string -> Option<Claims>, eventParam: string,
                                 castId: Option<ObjectId>, randomBytes: seq<byte>)
    requires |randomBytes| == RegistrationCodeBytes
    requires Consistent(db)
    ensures GatedBook(db, token, verify, eventParam, castId, randomBytes).reply != Fail(404, "User not found")
    ensures Consistent(GatedBook(db, token, verify, eventParam, castId, randomBytes).db)
  {
    var o := Gate(token, verify, db.users);
    if o.Admitted? {
      var k :| 0 <= k < |db.users| && db.users[k].id == o.userId && db.users[k].role == UserRole;
      assert FindUserById(db.users, o.userId).Some?;
      BookPreservesConsistent(db, o.userId, eventParam, castId, randomBytes);
      var r := BookSpec(db, o.userId, eventParam, castId, randomBytes);
      if r.reply == Fail(404, "User not found") {
        BookUserMissingBreaksSync(db, o.userId, eventParam, castId, randomBytes);
      }
    }
  }
}
