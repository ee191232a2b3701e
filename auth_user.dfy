/**
 * The authentication middleware. It looks the Basic-auth user name up as an
 * e-mail address and checks the password against the stored hash. On success it
 * attaches the user to the request and lets the next handler run; on any
 * failure it answers 401 with one fixed body, whatever went wrong, and keeps the
 * reason for its diagnostic line only.
 */
module AuthUser {
  import opened Wrappers
  import opened UserModel
  import opened Http

  /** The user name and password the `basic-auth` parser extracts from the Authorization header. */
  datatype Credentials = Credentials(name: string, pass: string)

  /** Why the gate refused a request. */
  datatype Reason = HeaderNotFound | UserNotFound(email: string) | PasswordMismatch(email: string)

  /** The gate's decision: let the request through as `user`, or refuse it. */
  datatype Outcome = Continue(user: User) | Reject(reason: Reason)

  /** The one body every refused request receives (the trailing space is the source's). */
  const AccessDenied: string := "Access Denied "

  const HeaderNotFoundText: string := "Auth header not found"
  const UserNotFoundPrefix: string := "User not found for email address: "
  const MismatchPrefix: string := "Authentication failure for email address: "

  /**
   * The gate's decision for `credentials` against the users table, with
   * `compare(pass, hash)` standing for `bcrypt.compareSync`.
   */
  function Decide(credentials: Option<Credentials>, users: seq<User>, compare: (string, string) -> bool): (r: Outcome)
    ensures credentials.None? ==> r == Reject(HeaderNotFound)
    ensures credentials.Some? && (forall u :: u in users ==> u.emailAddress != credentials.value.name)
      ==> r == Reject(UserNotFound(credentials.value.name))
    ensures r.Continue? <==>
      && credentials.Some?
      && FindOne(users, credentials.value.name).Some?
      && compare(credentials.value.pass, FindOne(users, credentials.value.name).value.password)
    ensures r.Continue? ==>
      && r.user in users
      && r.user.emailAddress == credentials.value.name
      && compare(credentials.value.pass, r.user.password)
    ensures r.Reject? && r.reason.PasswordMismatch? ==>
      && credentials.Some?
      && r.reason.email == credentials.value.name
      && FindOne(users, credentials.value.name).Some?
      && !compare(credentials.value.pass, FindOne(users, credentials.value.name).value.password)
    ensures credentials.Some? && FindOne(users, credentials.value.name).Some?
      && !compare(credentials.value.pass, FindOne(users, credentials.value.name).value.password)
      ==> r == Reject(PasswordMismatch(credentials.value.name))
  {
    match credentials
    case None => Reject(HeaderNotFound)
    case Some(c) =>
      match FindOne(users, c.name)
      case None => Reject(UserNotFound(c.name))
      case Some(user) =>
        if compare(c.pass, user.password) then Continue(user) else Reject(PasswordMismatch(user.emailAddress))
  }

  /** The diagnostic line the gate logs for a refusal; never empty, so the refusal branch is always taken. */
  function Diagnostic(reason: Reason): (m: string)
    ensures |m| > 0
  {
    match reason
    case HeaderNotFound => HeaderNotFoundText
    case UserNotFound(email) => UserNotFoundPrefix + email
    case PasswordMismatch(email) => MismatchPrefix + email
  }

  /**
   * `authenticateUser(req, res, next)`. Returns whether `next()` is called and
   * the line logged as a warning, if any.
   */
  method AuthenticateUser<B>(req: Request<B>, res: Response, credentials: Option<Credentials>,
                             users: seq<User>, compare: (string, string) -> bool)
    returns (nextCalled: bool, warning: Option<string>)
    modifies req`currentUser, res
    ensures var d := Decide(credentials, users, compare);
      && (nextCalled <==> d.Continue?)
      && (d.Continue? ==> req.currentUser == Some(d.user) && warning.None? && unchanged(res))
      && (d.Reject? ==>
            && req.currentUser == old(req.currentUser)
            && warning == Some(Diagnostic(d.reason))
            && res.status == 401 && res.body == Some(Message(AccessDenied)) && res.sent
            && res.location == old(res.location))
  {
    var message: Option<string> := None;
    if credentials.Some? {
      var user := FindOne(users, credentials.value.name);
      if user.Some? {
        var authenticated := compare(credentials.value.pass, user.value.password);
        if authenticated {
          req.currentUser := user;
        } else {
          message := Some(MismatchPrefix + user.value.emailAddress);
        }
      } else {
        message := Some(UserNotFoundPrefix + credentials.value.name);
      }
    } else {
      message := Some(HeaderNotFoundText);
    }
    if message.Some? {
      warning := message;
      res.Status(401);
      res.Json(Message(AccessDenied));
      nextCalled := false;
    } else {
      warning := None;
      nextCalled := true;
    }
  }
}
