/** Shared vocabulary of the expense backend and its front end: optional
    values (JavaScript's null/undefined), identifiers and user roles. */
module Common {

  /** A value that may be absent (null or undefined in the source). */
  datatype Option<+T> = None | Some(value: T)

  /** Identifiers are the string form of the document ids (`toString()` is
      how the source compares them). */
  type UserId = string
  type CompanyId = string
  type RuleId = string

  /** The three roles a user can hold. */
  datatype Role = Admin | Manager | Employee

  /** The role as it is written in documents, tokens and role lists. */
  function RoleName(r: Role): (name: string)
    ensures |name| > 0
  {
    match r
    case Admin => "admin"
    case Manager => "manager"
    case Employee => "employee"
  }
}
