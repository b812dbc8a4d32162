/**
 Account creation over the user table (app.py `create_user`). The table is a map from
 username to record; the password digest is a parameter, like the cache-key digest.
 */
module Users {
  import opened Roles

  datatype Speaker = User | Assistant

  /** One chat message as stored in a user's history. */
  datatype Message = Message(speaker: Speaker, content: string)

  datatype UserRecord = UserRecord(passwordHash: string, employeeId: string, role: string, history: seq<Message>)

  type UserTable = map<string, UserRecord>

  /** `create_user`'s `(success, message)` pair and the table afterwards. */
  datatype Registration = Registration(ok: bool, message: string, users: UserTable)

  /** Every stored role is the name of a derivable role. */
  ghost predicate KnownRoles(users: UserTable)
  {
    forall u :: u in users ==> exists r :: users[u].role == Name(r)
  }

  /** `create_user`: the ID must derive a role, then the username must be free; only then
      is a record written, with the hashed password, the derived role and an empty history. */
  function CreateUser(users: UserTable, hashPassword: string -> string,
                      username: string, password: string, employeeId: string): (r: Registration)
    ensures r.ok <==> DeriveRole(employeeId).Some? && username !in users
    ensures !r.ok ==> r.users == users
    ensures DeriveRole(employeeId).None? ==> r.message == "Invalid ID format."
    ensures DeriveRole(employeeId).Some? && username in users ==> r.message == "Username taken."
    ensures r.ok ==> var role := Name(DeriveRole(employeeId).value);
              && r.users.Keys == users.Keys + {username}
              && r.users[username] == UserRecord(hashPassword(password), employeeId, role, [])
              && r.message == "Account created! Role: " + role
    ensures forall u :: u in users ==> u in r.users && r.users[u] == users[u]
  {
    match DeriveRole(employeeId)
    case None => Registration(false, "Invalid ID format.", users)
    case Some(role) =>
      if username in users then Registration(false, "Username taken.", users)
      else
        var record := UserRecord(hashPassword(password), employeeId, Name(role), []);
        Registration(true, "Account created! Role: " + Name(role), users[username := record])
  }

  // ---------------------------------------------------------------------------
  // Properties

  /** Registration keeps every stored role a known role name. */
  lemma CreateUserKeepsKnownRoles(users: UserTable, hashPassword: string -> string,
                                  username: string, password: string, employeeId: string)
    requires KnownRoles(users)
    ensures KnownRoles(CreateUser(users, hashPassword, username, password, employeeId).users)
  {
  }

  /** An ID the role table rejects is refused before the username is even looked at. */
  lemma InvalidIdWinsOverTakenName(users: UserTable, hashPassword: string -> string,
                                   username: string, password: string, employeeId: string)
    requires username in users && DeriveRole(employeeId).None?
    ensures CreateUser(users, hashPassword, username, password, employeeId).message == "Invalid ID format."
  {
  }
}
