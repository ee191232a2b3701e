/** The users table as the authentication gate and the sign-up route see it. */
module UserModel {
  import opened Wrappers

  /** A row of the users table; `password` holds the stored bcrypt hash, never the plaintext. */
  datatype User = User(id: nat, emailAddress: string, password: string)

  /** A JSON request-body member: absent, explicitly null, or given. */
  datatype Field<T> = Absent | Null | Given(value: T)

  /** The body of a sign-up request: the password and the other members, passed to the ORM as they are. */
  datatype UserBody = UserBody(password: Field<string>, others: map<string, Field<string>>)

  /** JavaScript truthiness of a string-valued body member: present, not null and not "". */
  predicate Truthy(f: Field<string>) {
    f.Given? && f.value != ""
  }

  /**
   * `User.findOne({ where: { emailAddress: email } })`: a row whose address is
   * exactly `email`, or nothing when there is none.
   */
  function FindOne(users: seq<User>, email: string): (r: Option<User>)
    ensures r.None? <==> forall u :: u in users ==> u.emailAddress != email
    ensures r.Some? ==> r.value in users && r.value.emailAddress == email
  {
    if users == [] then None
    else if users[0].emailAddress == email then Some(users[0])
    else FindOne(users[1..], email)
  }
}
