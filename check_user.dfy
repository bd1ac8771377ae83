/** The `checkUser` middleware: it admits a request only when its `token`
    cookie verifies and names a stored user whose stored role is 'user',
    and then attaches that user's id to the request and calls `next`.
    Token verification (`jwt.verify` with the server's secret, including the
    expiry check) is a parameter: the decoded claims, or None when it throws. */
module CheckUser {
  import opened Wrappers
  import opened Schemas
  import opened UserRoute

  datatype GateOutcome = NoToken | InvalidToken | NotAUser | Admitted(userId: ObjectId)

  /** The error reply written for a refused request. */
  function DenialOf(o: GateOutcome): (d: Reply<string>)
    requires !o.Admitted?
    ensures d.Fail?
    ensures o == NoToken <==> d.status == 401
    ensures o == InvalidToken <==> d.status == 400
    ensures o == NotAUser <==> d.status == 403
    ensures d.message == match o
                         case NoToken => "Access denied, no token provided"
                         case InvalidToken => "Invalid token"
                         case _ => " Not a User"
  {
    match o
    case NoToken => Fail(401, "Access denied, no token provided")
    case InvalidToken => Fail(400, "Invalid token")
    case NotAUser => Fail(403, " Not a User")
  }

  /** The stored user a verified token names admits the request. */
  predicate StoredUserWithRoleUser(users: seq<User>, id: ObjectId) {
    var f := FindUserById(users, id);
    f.Some? && users[f.value].role == UserRole
  }

  /** The gate's decision. An empty cookie counts as no token. */
  function Gate(token: string, verify: string -> Option<Claims>, users: seq<User>): (o: GateOutcome)
    ensures o == NoToken <==> token == ""
    ensures o == InvalidToken <==> token != "" && verify(token).None?
    ensures o == NotAUser <==>
              token != "" && verify(token).Some? && !StoredUserWithRoleUser(users, verify(token).value.userId)
    ensures o.Admitted? ==>
              && token != "" && verify(token).Some? && o.userId == verify(token).value.userId
              && exists k :: 0 <= k < |users| && users[k].id == o.userId && users[k].role == UserRole
  {
    if token == "" then NoToken
    else match verify(token)
      case None => InvalidToken
      case Some(claims) =>
        var f := FindUserById(users, claims.userId);
        if f.None? || users[f.value].role != UserRole then NotAUser
        else Admitted(users[f.value].id)
  }

  /** Only the stored role decides: two tokens for the same user id that
      claim different roles are treated alike. */
  lemma GateIgnoresRoleClaim(token: string, verify: string -> Option<Claims>, verify': string -> Option<Claims>, users: seq<User>)
    requires token != "" && verify(token).Some? && verify'(token).Some?
    requires verify(token).value.userId == verify'(token).value.userId
    ensures Gate(token, verify, users) == Gate(token, verify', users)
  {
  }

  /** With unique ids, an admitted user is the stored user the token names,
      and that user's stored role is 'user' whatever the token claims. */
  lemma AdmittedIsStoredUser(token: string, verify: string -> Option<Claims>, users: seq<User>, k: nat)
    requires UniqueUserKeys(users)
    requires k < |users| && token != "" && verify(token).Some? && verify(token).value.userId == users[k].id
    ensures Gate(token, verify, users).Admitted? <==> users[k].role == UserRole
    ensures Gate(token, verify, users).Admitted? ==> Gate(token, verify, users).userId == users[k].id
  {
    assert FindUserById(users, users[k].id) == Some(k);
  }

  /** The request as the middleware sees it: its `token` cookie, and the
      `userId` field a gate may attach. */
  class Request {
    const token: string
    var userId: Option<ObjectId>

    constructor (token: string)
      ensures this.token == token && userId.None?
    {
      this.token := token;
      userId := None;
    }
  }

  /** Runs the middleware on `req`. `denial` is the reply it writes, if any;
      `nextCalls` counts the calls of `next`. */
  method CheckUser(req: Request, verify: string -> Option<Claims>, users: seq<User>)
    returns (denial: Option<Reply<string>>, nextCalls: nat)
    modifies req
    ensures var o := Gate(req.token, verify, users);
            && (o.Admitted? ==> denial.None? && nextCalls == 1 && req.userId == Some(o.userId))
            && (!o.Admitted? ==> denial == Some(DenialOf(o)) && nextCalls == 0 && req.userId == old(req.userId))
  {
    nextCalls := 0;
    if req.token == "" {
      return Some(Fail(401, "Access denied, no token provided")), nextCalls;
    }
    var decoded := verify(req.token);
    if decoded.None? {
      return Some(Fail(400, "Invalid token")), nextCalls;
    }
    var user := FindUserById(users, decoded.value.userId);
    if user.None? || users[user.value].role != UserRole {
      return Some(Fail(403, " Not a User")), nextCalls;
    }
    req.userId := Some(users[user.value].id);
    nextCalls := nextCalls + 1;
    denial := None;
  }
}
