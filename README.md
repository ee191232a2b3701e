# Course catalogue REST API: authentication, ownership and validation core

This project models the decision logic of a small REST API for user accounts and the courses they own.
The API is written for Express and Sequelize. The model covers three pieces:

- **The authentication gate** (`authenticateUser`). It reads a Basic-auth name and password and looks the
  name up as a user's `emailAddress`, matching exactly. It then checks the password against the stored
  hash. On success it stores the user in `req.currentUser` and calls `next()`. On any failure it sends
  401 with the body `{message: 'Access Denied '}`, whatever the reason, and logs the reason as a
  warning. When the user lookup and the password comparison complete, a request gets exactly one of
  the two outcomes.
- **The routes that write.** PUT and DELETE `/courses/:id` fetch the course first. A missing course
  gets 404 whoever asks. An existing course owned by someone else gets 403. Only the owner's request
  writes, and it answers 204. POST `/courses` and PUT turn a `SequelizeValidationError` into a 400
  carrying `errors.map(err => err.message)`. POST `/users` does the same for
  `SequelizeUniqueConstraintError` too. Every other error is thrown on. Sign-up replaces a truthy
  password with its hash before it creates the user.
- **The Course model's field rules.** `title` and `description` must be non-null and non-empty, and
  each rule has its own message; the source's wording, typos included, is kept verbatim.
  `estimatedTime` and `materialsNeeded` may be null. The `userId` foreign key may not be null.

Structure, one module per file:

- `wrappers.dfy` (`Wrappers`): `Option`.
- `orm_errors.dfy` (`OrmErrors`): the ORM's error object, classified by its `name`.
- `user.dfy` (`UserModel`): the user row and `findOne` by e-mail address.
- `course.dfy` (`CourseModel`): the rule table and the validator.
- `course_store.dfy` (`Persistence`): the courses table, as a pure `Store` value and as the mutable
  `CourseStore` object the handlers write through.
- `http.dfy` (`Http`): the request and response objects, as classes whose fields the handlers set.
- `auth_user.dfy` (`AuthUser`): the gate.
- `routes.dfy` (`Routes`): the handlers and the routes that put the gate in front of them.

The imperative code keeps its form. The gate and the handlers are methods that set fields on
`Request` and `Response` objects and write through `CourseStore`. Each method is proved equal to a
pure function: `AuthUser.Decide`, or `Routes.CreateCourse`, `UpdateCourse`, `DeleteCourse` and
`SignUpOutcome`. The properties are proved about those functions.

How the ORM behaves, as modelled. These points come from Sequelize's validator, not from the
repository's own files:

- A validation reports every not-null violation first, in attribute order (`title`,
  `description`, `userId`). Then it reports every not-empty violation (`title`, `description`).
  The order is `CourseModel.Rules`.
- A not-empty rule runs only on a non-null value. It refuses every string made only of white space,
  not just `""`.
- `userId` declares no message, so it gets the ORM's default, `Course.userId cannot be null`.
- `course.update(body)` validates only the attributes whose value the body changes.
  `CourseModel.UpdateOfValidRow` proves that for a valid stored row this reports exactly what a full
  validation of the updated row would.

Notes on the code's behaviour:

- Course ownership can change: the PUT handler passes the whole body to `course.update`, so an
  owner's update may set `userId` and with it the owner.
- POST `/courses` stores the `userId` the body names, not the authenticated user's id.
- A course whose `userId` is NULL can be written by no one, because `null !== id`.
- `routes.js` line 10 loads `./middleware/auth-user`, but the file lives at `middlewear/auth-user.js`.
  The model treats the two as the same module.

## Model

| member | source | states |
|---|---|---|
| `UserModel.FindOne` | middlewear/auth-user.js:19 | The lookup finds nothing exactly when no row's `emailAddress` equals the name. A row it finds is in the table and has exactly that address. |
| `AuthUser.Decide` | middlewear/auth-user.js:12-46 | No credentials: rejected as "header not found". No row with that exact address: rejected as "user not found". It continues exactly when the credentials parse, a row is found and `compare(pass, row.password)` holds. The user it continues with is that row. A found row whose comparison fails is rejected as a password mismatch for that address, and a mismatch is reported in no other case. |
| `AuthUser.Diagnostic` | middlewear/auth-user.js:39-49 | Every refusal's diagnostic line is non-empty, so `if (message)` always takes the 401 branch after a failure. |
| `AuthUser.AuthenticateUser` | middlewear/auth-user.js:8-57 | `next()` is called exactly when `Decide` continues. Then `currentUser` is that user, no warning is logged and the response is untouched. Otherwise `currentUser` is not assigned, the warning is the reason's diagnostic, and the response is sent with 401 and `{message: 'Access Denied '}`. That body is the same for every reason. |
| `CourseModel.Violations` | models/course.js:6-47 | A rule is reported exactly when it is in the table, its attribute is validated, and the row breaks it. The table's order is kept. |
| `CourseModel.Validate` | models/course.js:6-47 | The report is empty exactly when `title` and `description` are non-null and not blank and `userId` is set. A rule is reported exactly when the row breaks it. Reports follow the reporting order. |
| `CourseModel.ReportOrder` | models/course.js:7-47 | At most one message is reported per attribute. Every not-null message comes before every not-empty message. |
| `CourseModel.ItemListed` | routes.js:46 | An error list carries a rule's item exactly when that rule is among the rules it reports. |
| `CourseModel.ItemReported` | models/course.js:7-47 | A rule's error item is in the validation error's `errors` exactly when the row breaks that rule. |
| `CourseModel.ReportedItems` | models/course.js:7-47 | NULL `title` gives `'A title is required'`. Blank `title` gives `'Please provide a course name'`. NULL `description` gives `'A description is require is require'`. Blank `description` gives `'please provide a last name'`. NULL `userId` gives the not-null item. Each holds in both directions. |
| `CourseModel.NoRuleOnOptionalAttributes` | models/course.js:31-38 | No reported rule is about `estimatedTime` or `materialsNeeded`. |
| `CourseModel.OptionalAttributesIgnored` | models/course.js:31-38 | Any values of `estimatedTime` and `materialsNeeded`, NULL included, give the same report. |
| `CourseModel.MessagesIdentifyRules` | models/course.js:11-28 | Distinct rules have distinct messages. |
| `CourseModel.Items` | routes.js:46 | The ORM's `errors` list has one item per reported rule, in the same order. |
| `CourseModel.Changed` | routes.js:131 | An attribute is changed by the update exactly when the body gives it a different value. |
| `CourseModel.UpdateOfValidRow` | routes.js:131 | For a row that satisfies the rules, validating only the changed attributes reports the same as validating the whole updated row. |
| `Persistence.CreateError` | routes.js:103 | An invalid row is refused with a validation error listing its violations. A valid row fails only as the database decides. |
| `Persistence.UpdateError` | routes.js:131 | If a rule on an attribute the body changes is broken by the updated row, the update is refused with a validation error. Its items are the items of exactly those rules, one each, in reporting order: the list `Check` gives over the changed attributes. This holds whether or not the stored row was valid. If no such rule is broken, it fails only as the database decides. A valid stored row made invalid is refused with all of the updated row's violations. |
| `Persistence.CourseStore.FindByPk` | routes.js:120 | Finds a course exactly when the key is stored, and returns that row. |
| `Persistence.CourseStore.Create` | routes.js:103 | On success, inserts the row under a fresh key, the previous next key, and moves the next key on. On failure, changes nothing. The error is `CreateError`'s. |
| `Persistence.CourseStore.Update` | routes.js:131 | On success, replaces only the row `id` with the body applied. On failure, changes nothing. The error is `UpdateError`'s. |
| `Persistence.CourseStore.Destroy` | routes.js:159 | On success, removes only the row `id`. On failure, changes nothing. |
| `Routes.Authorize` | routes.js:120-129 | A missing course is "not found", whatever the user. An existing course is "forbidden" exactly when its `userId` is not the user's id, NULL included. It is "allowed" exactly when its `userId` is the user's id. |
| `Routes.ErrorMessages` | routes.js:46 | One message per error item, same length and same order: message `i` is item `i`'s message. |
| `Routes.CourseCatch` | routes.js:105-115 | A `SequelizeValidationError` gets a 400 with the items' messages. Every other error, a uniqueness error included, is thrown on unchanged. |
| `Routes.UserCatch` | routes.js:42-53 | `SequelizeValidationError` and `SequelizeUniqueConstraintError` get a 400 with the items' messages. Every other error is thrown on unchanged. |
| `Routes.UniqueConstraintOnlyAnsweredAtSignUp` | routes.js:45-52 | The same uniqueness error gets a 400 at sign-up and is thrown on by the course handlers. |
| `Routes.HashIfPresent` | routes.js:33-36 | A truthy password is replaced by its hash. A missing, null or empty password is left as it is. No other member of the body changes. |
| `Routes.SignUpOutcome` | routes.js:37-53 | A successful create answers 201 with `Location: /` and the success message. A failed create ends as `UserCatch` says. |
| `Routes.Decimal` | routes.js:104 | The id is written as a non-empty string of decimal digits, with no leading zero, that reads back as the id. |
| `Routes.CoursePath` | routes.js:104 | The location is `/courses/` followed by decimal digits, with no leading zero, that read back as the new course's id. |
| `Routes.CoursePathsDistinct` | routes.js:104 | Two different courses get two different locations. |
| `Routes.CreateCourse` | routes.js:101-116 | An invalid body leaves the table unchanged and answers 400 with no `Location`. The 400 carries one message per violated rule, in reporting order. A valid body that the database accepts is stored under the fresh key, and the reply is 201 with `Location: /courses/<id>` and no body. A database refusal leaves the table unchanged and ends as `CourseCatch` says. The table's invariant is kept. |
| `Routes.UpdateCourse` | routes.js:119-145 | A missing id answers 404 `'Course not found.'` and leaves the table unchanged, whoever asks. A course the user does not own answers 403 and leaves the table unchanged. Otherwise it answers 204 exactly when the update succeeds, and then only the row `id` changes, by the body. No other row and no key changes in any case. A failed update leaves the table unchanged and ends as `CourseCatch` says. |
| `Routes.DeleteCourse` | routes.js:148-162 | Same order as the update: 404 if missing, 403 if not the owner, both with the table unchanged. It answers 204 exactly when the owner's destroy succeeds, and then only row `id` is removed. A failed destroy is thrown on, with the table unchanged. |
| `Routes.PostUserHandler` | routes.js:31-54 | `req.body` is updated in place to `HashIfPresent` of the old body. `User.create` is called on that body. The response shows `SignUpOutcome` of its result, or the error is thrown and the response is left untouched. |
| `Routes.PostCourseHandler` | routes.js:101-116 | The new table and the response are those of `CreateCourse`. |
| `Routes.PutCourseHandler` | routes.js:119-145 | The new table and the response are those of `UpdateCourse` for `currentUser`'s id. |
| `Routes.DeleteCourseHandler` | routes.js:148-162 | The new table and the response are those of `DeleteCourse` for `currentUser`'s id. |
| `Routes.PostCourseRoute` | routes.js:101 | A request the gate refuses gets 401 and leaves the table unchanged. Otherwise the result is `CreateCourse`'s. |
| `Routes.PutCourseRoute` | routes.js:119 | A request the gate refuses gets 401 and leaves the table unchanged, before any lookup. Otherwise the result is `UpdateCourse`'s for the authenticated user. |
| `Routes.DeleteCourseRoute` | routes.js:148 | A request the gate refuses gets 401 and leaves the table unchanged. Otherwise the result is `DeleteCourse`'s for the authenticated user. |

## Left out

- bcrypt: `bcrypt.hash` and `bcrypt.compareSync` are function parameters (`hash`, `compare`). Salting, the work factor and constant-time comparison are not modelled.
- `basic-auth`: parsing the Authorization header is not modelled. The gate takes its result as an `Option<Credentials>`.
- Console output: the warning the gate logs is returned as an out-parameter instead of being printed. The `console.log` lines of the handlers are left out.
- The user model is not part of this model. `User.create` is a function parameter from the body it receives to the error it throws, if any. The users table is a sequence of rows.
- `UserModel.FindOne` returns the first matching row. The database may return any matching row; with unique e-mail addresses the two agree.
- Database failures other than validation, such as a foreign-key violation or a lost connection, are a `fault` parameter of each write. `findByPk` is assumed not to fail.
- `AuthUser.Decide`: the gate's `User.findOne` and `bcrypt.compareSync` are assumed not to fail. In the source the middleware is an async function outside `asyncHandler`. If the lookup rejects, or the comparison throws (for a stored password that is not a string, say), its promise rejects. The request then gets neither the 401 nor `next()`. The model does not capture that case.
- Sequelize's type checks are not modelled. Only string values for the text attributes, natural numbers for `userId`, and the five course attributes are modelled. Unknown members and an `id` member in the body are left out.
- `Routes.HashIfPresent`: the sign-up body's `password` is a string, absent or null. In the source, a truthy non-string password, such as a JSON number, makes `bcrypt.hash` reject inside the `try`. That error is neither a validation nor a uniqueness error, so it is thrown on. The model does not capture this path.
- `req.params.id` is taken as a natural number. Parsing it from the URL is left out.
- `const user = req.body` is an alias in the source. The model reassigns `req.body` to the hashed body, which has the same effect.
- The GET routes, router set-up, `asyncHandler`, the fallback 500 handler and JSON serialisation are left out. A thrown error is returned as `thrown`.
- Concurrency is not modelled, including the window between `findByPk` and `update`/`destroy`. Each request runs alone against the table.
