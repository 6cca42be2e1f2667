/**
 * The user records the registration and statistics routes read and write.
 * The user schema itself (and any password hashing it does) is not part of
 * this model: a user is the record the registration route creates.
 */
module Users {
  import opened Wrappers
  import opened Query
  import opened Models


  datatype Role = Student | Instructor | Admin

  function RoleName(r: Role): string {
    match r
    case Student => "student"
    case Instructor => "instructor"
    case Admin => "admin"
  }

  const ValidRoles: seq<string> := ["student", "instructor", "admin"]

  /** `role && validRoles.includes(role) ? role : 'student'`. */
  function NormaliseRole(role: Option<string>): (r: Role)
    ensures RoleName(r) in ValidRoles
    ensures role.Some? && role.value in ValidRoles ==> RoleName(r) == role.value
    ensures role.None? || role.value !in ValidRoles ==> r == Student
  {
    if role.Some? && role.value == "instructor" then Instructor
    else if role.Some? && role.value == "admin" then Admin
    else Student
  }

  /** Normalising the name of a role gives the role back. */
  lemma NormaliseRoleName(r: Role)
    ensures NormaliseRole(Some(RoleName(r))) == r
  {
  }

  datatype User = User(id: Id, email: string, password: string, firstName: string, lastName: string, role: Role)

  function UserId(u: User): Id {
    u.id
  }

  function UserEmail(u: User): string {
    u.email
  }

  /** No two users share an id or an email (the `_id` index and the unique email index). */
  ghost predicate UniqueKeys(users: seq<User>) {
    forall i, j :: 0 <= i < j < |users| ==> users[i].id != users[j].id && users[i].email != users[j].email
  }

  /** Appending a user whose id and email are both unused keeps the keys unique. */
  lemma AppendKeepsUniqueKeys(users: seq<User>, u: User)
    requires UniqueKeys(users) && FindByKey(users, UserId, u.id).None? && FindByKey(users, UserEmail, u.email).None?
    ensures UniqueKeys(users + [u])
  {
    var s := users + [u];
    forall i, j | 0 <= i < j < |s| ensures s[i].id != s[j].id && s[i].email != s[j].email {
      if j == |users| {
        assert s[i] in users;
        assert UserId(s[i]) != u.id && UserEmail(s[i]) != u.email;
      }
    }
  }
}
