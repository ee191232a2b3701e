/**
 * The errors the ORM raises on create and update. The handlers tell them apart
 * only by their `name`; the validation-class ones carry a list of items, one per
 * violated rule, each with the message the client is shown.
 */
module OrmErrors {

  const ValidationErrorName: string := "SequelizeValidationError"
  const UniqueConstraintErrorName: string := "SequelizeUniqueConstraintError"

  /** One violated rule: its message and the attribute it is about. */
  datatype ErrorItem = ErrorItem(message: string, path: string)

  /** An error thrown by the ORM or the database below it. */
  datatype DbError = DbError(name: string, errors: seq<ErrorItem>)
}
