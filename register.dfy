/**
 * POST /api/auth/register: an ordered validation (required fields, then
 * password length, then an existing email), role normalisation, creation of
 * one user, and a signed token for the new user.
 *
 * The database and the token signer are outside the model: whether the
 * email lookup throws, the error (if any) the insert reports besides a
 * duplicate key, the new document's id and the signer are parameters.
 */
module Register {
  import opened Wrappers
  import opened Text
  import opened Http
  import opened Query
  import opened Users
  import opened Models

  datatype RegisterBody = RegisterBody(
    email: Option<string>,
    password: Option<string>,
    firstName: Option<string>,
    lastName: Option<string>,
    role: Option<string>)

  predicate AllGiven(body: RegisterBody) {
    Truthy(body.email) && Truthy(body.password) && Truthy(body.firstName) && Truthy(body.lastName)
  }

  const MinPasswordLength: nat := 6

  const MissingFields := Error(400, "All fields are required")
  const ShortPassword := Error(400, "Password must be at least 6 characters")
  const DuplicateUser := Error(400, "User already exists with this email")
  const LookupFailed := Error(500, "Error checking user existence")
  const TokenFailed := Error(500, "Failed to generate authentication token")

  /** The two checks made before the store is consulted, in the route's order. */
  function Validate(body: RegisterBody): (r: Option<Error>)
    ensures r == Some(MissingFields) <==> !AllGiven(body)
    ensures r == Some(ShortPassword) <==> AllGiven(body) && |body.password.value| < MinPasswordLength
    ensures r.None? <==> AllGiven(body) && |body.password.value| >= MinPasswordLength
  {
    if !AllGiven(body) then Some(MissingFields)
    else if |body.password.value| < MinPasswordLength then Some(ShortPassword)
    else None
  }

  /** The 500 answer to an insert error that is not a duplicate key: its message, or a fixed one when it has none. */
  function CreateFailed(message: string): (e: Error)
    ensures e.status == 500 && e.message != ""
    ensures message != "" ==> e.message == message
    ensures message == "" ==> e.message == "Failed to create user"
  {
    Error(500, if message == "" then "Failed to create user" else message)
  }

  /** The response's view of the user: every field but the password. */
  datatype PublicUser = PublicUser(id: Id, email: string, firstName: string, lastName: string, role: Role)

  datatype TokenPayload = TokenPayload(userId: Id, email: string, role: Role)

  datatype Registered = Registered(message: string, token: string, user: PublicUser)

  /** The token signer: a token for the payload, or None when signing throws. */
  type Signer = TokenPayload -> Option<string>

  function Public(u: User): (p: PublicUser)
    ensures p.id == u.id && p.email == u.email && p.firstName == u.firstName
            && p.lastName == u.lastName && p.role == u.role
  {
    PublicUser(u.id, u.email, u.firstName, u.lastName, u.role)
  }

  /** The user the route asks the store to create. */
  function NewUser(body: RegisterBody, id: Id): (u: User)
    requires AllGiven(body)
    ensures u.id == id && u.email == body.email.value && u.password == body.password.value
    ensures u.firstName == body.firstName.value && u.lastName == body.lastName.value
    ensures RoleName(u.role) == if body.role.Some? && body.role.value in ValidRoles then body.role.value else "student"
  {
    User(id, body.email.value, body.password.value, body.firstName.value, body.lastName.value, NormaliseRole(body.role))
  }

  /** The insert is attempted and goes through: validation passed, the lookup worked and found no such email, and the insert reports no error and no duplicate key. */
  ghost predicate Inserts(users: seq<User>, body: RegisterBody, id: Id, lookupFails: bool, createError: Option<string>) {
    && Validate(body).None? && !lookupFails
    && FindByKey(users, UserEmail, body.email.value).None?
    && createError.None? && FindByKey(users, UserId, id).None?
  }

  class UserStore {
    var users: seq<User>

    ghost predicate Valid()
      reads this
    {
      UniqueKeys(users)
    }

    constructor ()
      ensures Valid() && users == []
    {
      users := [];
    }

    method Register(body: RegisterBody, id: Id, lookupFails: bool, createError: Option<string>, sign: Signer)
      returns (r: Response<Registered>)
      requires Valid()
      modifies this
      ensures Valid()
      ensures !AllGiven(body) ==> r == Fail(MissingFields)
      ensures AllGiven(body) && |body.password.value| < MinPasswordLength ==> r == Fail(ShortPassword)
      ensures Validate(body).None? && lookupFails ==> r == Fail(LookupFailed)
      ensures Validate(body).None? && !lookupFails && FindByKey(old(users), UserEmail, body.email.value).Some?
              ==> r == Fail(DuplicateUser)
      ensures Validate(body).None? && !lookupFails && FindByKey(old(users), UserEmail, body.email.value).None?
              && createError.Some?
              ==> r == Fail(CreateFailed(createError.value))
      ensures Validate(body).None? && !lookupFails && FindByKey(old(users), UserEmail, body.email.value).None?
              && createError.None? && FindByKey(old(users), UserId, id).Some?
              ==> r == Fail(DuplicateUser)
      ensures Inserts(old(users), body, id, lookupFails, createError)
              && sign(TokenPayload(id, body.email.value, NormaliseRole(body.role))).None?
              ==> r == Fail(TokenFailed)
      ensures Inserts(old(users), body, id, lookupFails, createError)
              ==> users == old(users) + [NewUser(body, id)]
      ensures !Inserts(old(users), body, id, lookupFails, createError) ==> users == old(users)
      ensures r.Ok? <==>
                Inserts(old(users), body, id, lookupFails, createError)
                && sign(TokenPayload(id, body.email.value, NormaliseRole(body.role))).Some?
      ensures r.Ok? ==>
                && r.status == 201
                && r.body.user == Public(NewUser(body, id))
                && r.body.token == sign(TokenPayload(id, body.email.value, NormaliseRole(body.role))).value
      ensures r.Status() in {201, 400, 500}
    {
      var v := Validate(body);
      if v.Some? {
        return Fail(v.value);
      }
      if lookupFails {
        return Fail(LookupFailed);
      }
      var email := body.email.value;
      if FindByKey(users, UserEmail, email).Some? {
        return Fail(DuplicateUser);
      }
      var user := NewUser(body, id);
      if createError.Some? {
        return Fail(CreateFailed(createError.value));
      }
      if FindByKey(users, UserId, id).Some? {
        // a duplicate key on the insert is answered like an existing email
        return Fail(DuplicateUser);
      }
      AppendKeepsUniqueKeys(users, user);
      users := users + [user];
      var token := sign(TokenPayload(user.id, user.email, user.role));
      if token.None? {
        // the user stays stored although the answer is an error
        return Fail(TokenFailed);
      }
      r := Ok(201, Registered("User created successfully", token.value, Public(user)));
    }
  }
}
