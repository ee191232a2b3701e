/**
 * The sign-up route and the three course routes that write: create, update and
 * delete. Update and delete look the course up first and answer 404 when it is
 * missing, then 403 when the authenticated user does not own it, and only then
 * write. Validation failures become 400 replies listing the messages in order;
 * every other error is thrown on to the framework's fallback handler.
 */
module Routes {
  import opened Wrappers
  import opened OrmErrors
  import opened UserModel
  import opened CourseModel
  import opened Persistence
  import opened Http
  import AuthUser

  const CourseNotFound: string := "Course not found."
  const ModifyForbidden: string := "You are not authourized to modify this course."
  const DeleteForbidden: string := "You are not authourized to delete this course."
  const AccountCreated: string := "Account successfully created!"

  const NotFoundReply: Reply := Reply(404, None, Some(Message(CourseNotFound)))
  const NoContent: Reply := Reply(204, None, None)

  /** How a handler ends: it replies, or it throws the error on. */
  datatype Outcome = Replied(reply: Reply) | Threw(error: DbError)

  /** A handler's effect: the table afterwards and how the handler ended. */
  datatype Effect = Effect(store: Store, outcome: Outcome)

  /** The check update and delete make before they write. */
  datatype Decision = NotFound | Forbidden | Allowed

  /**
   * Existence first, ownership second: a missing course is "not found" for
   * everyone; an existing one may be written only by the user its `userId`
   * names, and a course whose `userId` is NULL by no one.
   */
  function Authorize(course: Option<Course>, currentUserId: nat): (d: Decision)
    ensures d == NotFound <==> course.None?
    ensures d == Forbidden <==> course.Some? && course.value.userId != Some(currentUserId)
    ensures d == Allowed <==> course.Some? && course.value.userId == Some(currentUserId)
  {
    match course
    case None => NotFound
    case Some(c) => if c.userId != Some(currentUserId) then Forbidden else Allowed
  }

  /** `error.errors.map(err => err.message)`. */
  function ErrorMessages(items: seq<ErrorItem>): (msgs: seq<string>)
    ensures |msgs| == |items|
    ensures forall i :: 0 <= i < |items| ==> msgs[i] == items[i].message
  {
    if items == [] then [] else [items[0].message] + ErrorMessages(items[1..])
  }

  /** The 400 reply listing the messages of `items`, in order. */
  function BadRequest(items: seq<ErrorItem>): Reply {
    Reply(400, None, Some(Errors(ErrorMessages(items))))
  }

  /** The catch block of the course create and update handlers: only validation errors are answered. */
  function CourseCatch(e: DbError): (o: Outcome)
    ensures o.Replied? <==> e.name == ValidationErrorName
    ensures o.Replied? ==> o.reply == BadRequest(e.errors)
    ensures o.Threw? ==> o.error == e
  {
    if e.name == ValidationErrorName then Replied(BadRequest(e.errors)) else Threw(e)
  }

  /** The catch block of the sign-up handler: validation and uniqueness errors are both answered. */
  function UserCatch(e: DbError): (o: Outcome)
    ensures o.Replied? <==> e.name == ValidationErrorName || e.name == UniqueConstraintErrorName
    ensures o.Replied? ==> o.reply == BadRequest(e.errors)
    ensures o.Threw? ==> o.error == e
  {
    if e.name == ValidationErrorName || e.name == UniqueConstraintErrorName then Replied(BadRequest(e.errors))
    else Threw(e)
  }

  /** A duplicate account is a 400 at sign-up, while the course handlers throw the same error on. */
  lemma UniqueConstraintOnlyAnsweredAtSignUp(e: DbError)
    requires e.name == UniqueConstraintErrorName
    ensures UserCatch(e) == Replied(BadRequest(e.errors))
    ensures CourseCatch(e) == Threw(e)
  {
  }

  /** The body sign-up passes on: a truthy password is replaced by its hash, nothing else changes. */
  function HashIfPresent(body: UserBody, hash: string -> string): (r: UserBody)
    ensures Truthy(body.password) ==> r.password == Given(hash(body.password.value))
    ensures !Truthy(body.password) ==> r.password == body.password
    ensures r.others == body.others
  {
    if Truthy(body.password) then body.(password := Given(hash(body.password.value))) else body
  }

  /** How sign-up ends once `User.create` has answered `err`. */
  function SignUpOutcome(err: Option<DbError>): (o: Outcome)
    ensures err.None? ==> o == Replied(Reply(201, Some("/"), Some(Message(AccountCreated))))
    ensures err.Some? ==> o == UserCatch(err.value)
  {
    match err
    case None => Replied(Reply(201, Some("/"), Some(Message(AccountCreated))))
    case Some(e) => UserCatch(e)
  }

  /** The number a string of decimal digits denotes, most significant digit first. */
  function DigitsValue(s: string): int {
    if s == [] then 0 else 10 * DigitsValue(s[..|s| - 1]) + (s[|s| - 1] as int - '0' as int)
  }

  /** The decimal digits of `n`, as a template literal writes a number: they read back as `n`. */
  function Decimal(n: nat): (s: string)
    ensures |s| > 0
    ensures forall i :: 0 <= i < |s| ==> '0' <= s[i] <= '9'
    ensures DigitsValue(s) == n
    ensures |s| > 1 ==> s[0] != '0'
  {
    if n < 10 then
      var s := ["0123456789"[n]];
      assert s[..0] == [];
      s
    else
      var s := Decimal(n / 10) + ["0123456789"[n % 10]];
      assert s[..|s| - 1] == Decimal(n / 10);
      s
  }

  /** The `Location` of the course stored under `id`. */
  function CoursePath(id: nat): (p: string)
    ensures |p| > 9 && p[..9] == "/courses/" && DigitsValue(p[9..]) == id
    ensures forall i :: 9 <= i < |p| ==> '0' <= p[i] <= '9'
    ensures |p| > 10 ==> p[9] != '0'
  {
    var p := "/courses/" + Decimal(id);
    assert p[9..] == Decimal(id);
    p
  }

  /** Distinct courses are given distinct locations. */
  lemma CoursePathsDistinct(a: nat, b: nat)
    requires a != b
    ensures CoursePath(a) != CoursePath(b)
  {
  }

  /** POST /courses: insert the body's row, or answer with its violations in reporting order. */
  function CreateCourse(s: Store, body: CourseBody, fault: Option<DbError>): (e: Effect)
    requires Valid(s)
    ensures Valid(e.store)
    ensures !IsValid(Build(body)) ==>
      && e.store == s
      && e.outcome == Replied(BadRequest(Items(Validate(Build(body)))))
      && e.outcome.reply.status == 400 && e.outcome.reply.location.None?
      && e.outcome.reply.body.Some? && e.outcome.reply.body.value.Errors?
      && |e.outcome.reply.body.value.errors| == |Validate(Build(body))|
      && forall i :: 0 <= i < |Validate(Build(body))| ==>
           e.outcome.reply.body.value.errors[i] == RuleMessage(Validate(Build(body))[i])
    ensures IsValid(Build(body)) && fault.None? ==>
      && s.nextId !in s.courses
      && e.store == Store(s.courses[s.nextId := Build(body)], s.nextId + 1)
      && e.outcome == Replied(Reply(201, Some(CoursePath(s.nextId)), None))
    ensures IsValid(Build(body)) && fault.Some? ==> e == Effect(s, CourseCatch(fault.value))
  {
    var c := Build(body);
    match CreateError(c, fault)
    case None => Effect(Store(s.courses[s.nextId := c], s.nextId + 1), Replied(Reply(201, Some(CoursePath(s.nextId)), None)))
    case Some(err) => Effect(s, CourseCatch(err))
  }

  /** PUT /courses/:id by the user `currentUserId`. */
  function UpdateCourse(s: Store, id: nat, currentUserId: nat, body: CourseBody, fault: Option<DbError>): (e: Effect)
    requires Valid(s)
    ensures Valid(e.store)
    ensures id !in s.courses ==> e == Effect(s, Replied(NotFoundReply))
    ensures id in s.courses && s.courses[id].userId != Some(currentUserId) ==>
      e == Effect(s, Replied(Reply(403, None, Some(Message(ModifyForbidden)))))
    ensures e.store.nextId == s.nextId && e.store.courses.Keys == s.courses.Keys
    ensures forall k :: k in s.courses && k != id ==> e.store.courses[k] == s.courses[k]
    ensures e.outcome == Replied(NoContent) <==>
      id in s.courses && s.courses[id].userId == Some(currentUserId)
      && UpdateError(s.courses[id], body, fault).None?
    ensures e.outcome == Replied(NoContent) ==> e.store.courses[id] == Apply(s.courses[id], body)
    ensures e.outcome != Replied(NoContent) ==> e.store == s
    ensures id in s.courses && s.courses[id].userId == Some(currentUserId) && UpdateError(s.courses[id], body, fault).Some?
      ==> e.outcome == CourseCatch(UpdateError(s.courses[id], body, fault).value)
  {
    match Authorize(Lookup(s.courses, id), currentUserId)
    case NotFound => Effect(s, Replied(NotFoundReply))
    case Forbidden => Effect(s, Replied(Reply(403, None, Some(Message(ModifyForbidden)))))
    case Allowed =>
      var c := s.courses[id];
      match UpdateError(c, body, fault)
      case None => Effect(s.(courses := s.courses[id := Apply(c, body)]), Replied(NoContent))
      case Some(err) => Effect(s, CourseCatch(err))
  }

  /** DELETE /courses/:id by the user `currentUserId`. */
  function DeleteCourse(s: Store, id: nat, currentUserId: nat, fault: Option<DbError>): (e: Effect)
    requires Valid(s)
    ensures Valid(e.store)
    ensures id !in s.courses ==> e == Effect(s, Replied(NotFoundReply))
    ensures id in s.courses && s.courses[id].userId != Some(currentUserId) ==>
      e == Effect(s, Replied(Reply(403, None, Some(Message(DeleteForbidden)))))
    ensures e.outcome == Replied(NoContent) <==>
      id in s.courses && s.courses[id].userId == Some(currentUserId) && fault.None?
    ensures e.outcome == Replied(NoContent) ==>
      && e.store.nextId == s.nextId
      && e.store.courses.Keys == s.courses.Keys - {id}
      && forall k :: k in e.store.courses ==> e.store.courses[k] == s.courses[k]
    ensures e.outcome != Replied(NoContent) ==> e.store == s
    ensures id in s.courses && s.courses[id].userId == Some(currentUserId) && fault.Some? ==>
      e.outcome == Threw(fault.value)
  {
    match Authorize(Lookup(s.courses, id), currentUserId)
    case NotFound => Effect(s, Replied(NotFoundReply))
    case Forbidden => Effect(s, Replied(Reply(403, None, Some(Message(DeleteForbidden)))))
    case Allowed =>
      match fault
      case None => Effect(s.(courses := s.courses - {id}), Replied(NoContent))
      case Some(err) => Effect(s, Threw(err))
  }

  /** The response shows `o`: the reply was sent, or the error was thrown and the response left alone. */
  ghost predicate Delivered(res: Response, o: Outcome, thrown: Option<DbError>)
    reads res
  {
    match o
    case Replied(r) => thrown.None? && res.sent && res.View() == r
    case Threw(e) => thrown == Some(e) && res.Untouched()
  }

  /** The handler of POST /users, with `hash` for `bcrypt.hash` and `create` for `User.create`. */
  method PostUserHandler(req: Request<UserBody>, res: Response, hash: string -> string,
                         create: UserBody -> Option<DbError>)
    returns (thrown: Option<DbError>)
    requires res.Untouched()
    modifies req`body, res
    ensures req.body == HashIfPresent(old(req.body), hash)
    ensures Delivered(res, SignUpOutcome(create(req.body)), thrown)
  {
    var user := req.body;
    if Truthy(user.password) {
      req.body := user.(password := Given(hash(user.password.value)));
    }
    var err := create(req.body);
    if err.None? {
      res.SetLocation("/");
      res.Status(201);
      res.Json(Message(AccountCreated));
      thrown := None;
    } else if err.value.name == ValidationErrorName || err.value.name == UniqueConstraintErrorName {
      var errors := ErrorMessages(err.value.errors);
      res.Status(400);
      res.Json(Errors(errors));
      thrown := None;
    } else {
      thrown := err;
    }
  }

  /** The handler of POST /courses. */
  method PostCourseHandler(req: Request<CourseBody>, res: Response, store: CourseStore, fault: Option<DbError>)
    returns (thrown: Option<DbError>)
    requires res.Untouched() && Valid(store.State())
    modifies res, store
    ensures Valid(store.State())
    ensures store.State() == CreateCourse(old(store.State()), req.body, fault).store
    ensures Delivered(res, CreateCourse(old(store.State()), req.body, fault).outcome, thrown)
  {
    var err, id := store.Create(Build(req.body), fault);
    if err.None? {
      res.SetLocation(CoursePath(id));
      res.Status(201);
      res.End();
      thrown := None;
    } else if err.value.name == ValidationErrorName {
      var errors := ErrorMessages(err.value.errors);
      res.Status(400);
      res.Json(Errors(errors));
      thrown := None;
    } else {
      thrown := err;
    }
  }

  /** The handler of PUT /courses/:id; the gate has already set `currentUser`. */
  method PutCourseHandler(req: Request<CourseBody>, res: Response, store: CourseStore, id: nat, fault: Option<DbError>)
    returns (thrown: Option<DbError>)
    requires req.currentUser.Some?
    requires res.Untouched() && Valid(store.State())
    modifies res, store
    ensures Valid(store.State())
    ensures store.State() == UpdateCourse(old(store.State()), id, req.currentUser.value.id, req.body, fault).store
    ensures Delivered(res, UpdateCourse(old(store.State()), id, req.currentUser.value.id, req.body, fault).outcome, thrown)
  {
    var course := store.FindByPk(id);
    if course.None? {
      res.Status(404);
      res.Json(Message(CourseNotFound));
      thrown := None;
    } else if course.value.userId != Some(req.currentUser.value.id) {
      res.Status(403);
      res.Json(Message(ModifyForbidden));
      thrown := None;
    } else {
      var err := store.Update(id, req.body, fault);
      if err.None? {
        res.Status(204);
        res.End();
        thrown := None;
      } else if err.value.name == ValidationErrorName {
        var errors := ErrorMessages(err.value.errors);
        res.Status(400);
        res.Json(Errors(errors));
        thrown := None;
      } else {
        thrown := err;
      }
    }
  }

  /** The handler of DELETE /courses/:id; the gate has already set `currentUser`. */
  method DeleteCourseHandler<B>(req: Request<B>, res: Response, store: CourseStore, id: nat, fault: Option<DbError>)
    returns (thrown: Option<DbError>)
    requires req.currentUser.Some?
    requires res.Untouched() && Valid(store.State())
    modifies res, store
    ensures Valid(store.State())
    ensures store.State() == DeleteCourse(old(store.State()), id, req.currentUser.value.id, fault).store
    ensures Delivered(res, DeleteCourse(old(store.State()), id, req.currentUser.value.id, fault).outcome, thrown)
  {
    var course := store.FindByPk(id);
    if course.None? {
      res.Status(404);
      res.Json(Message(CourseNotFound));
      thrown := None;
    } else if course.value.userId != Some(req.currentUser.value.id) {
      res.Status(403);
      res.Json(Message(DeleteForbidden));
      thrown := None;
    } else {
      thrown := store.Destroy(id, fault);
      if thrown.None? {
        res.Status(204);
        res.End();
      }
    }
  }

  /** The reply every request the gate refuses receives. */
  const Denied: Reply := Reply(401, None, Some(Message(AuthUser.AccessDenied)))

  /** POST /courses: the gate, then the handler. */
  method PostCourseRoute(req: Request<CourseBody>, res: Response, store: CourseStore, fault: Option<DbError>,
                         credentials: Option<AuthUser.Credentials>, users: seq<User>, compare: (string, string) -> bool)
    returns (thrown: Option<DbError>)
    requires res.Untouched() && Valid(store.State())
    modifies req`currentUser, res, store
    ensures Valid(store.State())
    ensures AuthUser.Decide(credentials, users, compare).Reject? ==>
      store.State() == old(store.State()) && Delivered(res, Replied(Denied), thrown)
    ensures AuthUser.Decide(credentials, users, compare).Continue? ==>
      && store.State() == CreateCourse(old(store.State()), req.body, fault).store
      && Delivered(res, CreateCourse(old(store.State()), req.body, fault).outcome, thrown)
  {
    var next, _ := AuthUser.AuthenticateUser(req, res, credentials, users, compare);
    if next {
      thrown := PostCourseHandler(req, res, store, fault);
    } else {
      thrown := None;
    }
  }

  /** PUT /courses/:id: the gate, then the handler. */
  method PutCourseRoute(req: Request<CourseBody>, res: Response, store: CourseStore, id: nat, fault: Option<DbError>,
                        credentials: Option<AuthUser.Credentials>, users: seq<User>, compare: (string, string) -> bool)
    returns (thrown: Option<DbError>)
    requires res.Untouched() && Valid(store.State())
    modifies req`currentUser, res, store
    ensures Valid(store.State())
    ensures AuthUser.Decide(credentials, users, compare).Reject? ==>
      store.State() == old(store.State()) && Delivered(res, Replied(Denied), thrown)
    ensures var d := AuthUser.Decide(credentials, users, compare);
      d.Continue? ==>
        && store.State() == UpdateCourse(old(store.State()), id, d.user.id, req.body, fault).store
        && Delivered(res, UpdateCourse(old(store.State()), id, d.user.id, req.body, fault).outcome, thrown)
  {
    var next, _ := AuthUser.AuthenticateUser(req, res, credentials, users, compare);
    if next {
      thrown := PutCourseHandler(req, res, store, id, fault);
    } else {
      thrown := None;
    }
  }

  /** DELETE /courses/:id: the gate, then the handler. */
  method DeleteCourseRoute<B>(req: Request<B>, res: Response, store: CourseStore, id: nat, fault: Option<DbError>,
                              credentials: Option<AuthUser.Credentials>, users: seq<User>, compare: (string, string) -> bool)
    returns (thrown: Option<DbError>)
    requires res.Untouched() && Valid(store.State())
    modifies req`currentUser, res, store
    ensures Valid(store.State())
    ensures AuthUser.Decide(credentials, users, compare).Reject? ==>
      store.State() == old(store.State()) && Delivered(res, Replied(Denied), thrown)
    ensures var d := AuthUser.Decide(credentials, users, compare);
      d.Continue? ==>
        && store.State() == DeleteCourse(old(store.State()), id, d.user.id, fault).store
        && Delivered(res, DeleteCourse(old(store.State()), id, d.user.id, fault).outcome, thrown)
  {
    var next, _ := AuthUser.AuthenticateUser(req, res, credentials, users, compare);
    if next {
      thrown := DeleteCourseHandler(req, res, store, id, fault);
    } else {
      thrown := None;
    }
  }
}
