/**
 The user endpoints: password authentication against the `users` table,
 registration, and the authenticated profile update. The password hashing
 library is abstracted as a pair of functions; database failures are inputs.
 */
module Users {
  import opened Wrappers
  import opened Schema

  /**
   The password context. `hash` receives, besides the plaintext, the salt the
   library draws at random on each call, so two calls may give different
   digests. Both are assumed to return; nothing else is assumed of them.
   */
  datatype CryptContext = CryptContext(hash: (string, string) -> string, verify: (string, string) -> bool)

  /** The library's promise that a digest verifies its own plaintext; an assumption, not a fact this code establishes. */
  ghost predicate VerifiesOwnHash(ctx: CryptContext) {
    forall p, salt :: ctx.verify(p, ctx.hash(p, salt))
  }

  /** Request bodies. */
  datatype NewUser = NewUser(name: string, email: string, age: int, password: string)
  datatype UserLogin = UserLogin(email: string, password: string)
  datatype UserUpdate = UserUpdate(name: string, email: string, age: int)

  /** An HTTP error raised out of the endpoint. */
  datatype HttpError = HttpError(status: int, detail: string)

  /** The one error for an unknown id/email pair and for a wrong password alike. */
  const InvalidCredentials: HttpError := HttpError(401, "Invalid email or password")

  /** The columns the authentication query selects. */
  datatype AuthenticatedUser = AuthenticatedUser(userId: int, name: string, email: string, password: string)

  datatype AuthResult = Authenticated(user: AuthenticatedUser) | Rejected(error: HttpError)

  // ----- authentication -----------------------------------------------------

  /** The query selects the row whose id is `userId` and whose email is `email`. */
  function SelectUser(users: UsersTable, userId: int, email: string): (row: Option<AuthenticatedUser>)
    ensures row.Some? <==> userId in users && users[userId].email == email
    ensures row.Some? ==> row.value.userId == userId
                          && row.value.name == users[userId].name
                          && row.value.email == email
                          && row.value.password == users[userId].password
  {
    if userId in users && users[userId].email == email then
      var u := users[userId];
      Some(AuthenticatedUser(userId, u.name, u.email, u.password))
    else
      None
  }

  /**
   `authenticateUser`: find the row with both the id and the email, then check
   the password against its stored digest. Reads the table, never writes it.
   */
  function Authenticate(ctx: CryptContext, users: UsersTable, userId: int, login: UserLogin): (r: AuthResult)
    ensures r.Authenticated? <==>
              userId in users && users[userId].email == login.email
              && ctx.verify(login.password, users[userId].password)
    ensures r.Authenticated? ==>
              && r.user.userId == userId
              && r.user.name == users[userId].name
              && r.user.email == login.email
              && r.user.password == users[userId].password
    ensures r.Rejected? ==> r.error == InvalidCredentials
  {
    match SelectUser(users, userId, login.email)
    case None => Rejected(InvalidCredentials)
    case Some(user) =>
      if !ctx.verify(login.password, user.password) then Rejected(InvalidCredentials)
      else Authenticated(user)
  }

  /** Rejection carries the same error whether the row is missing or the password is wrong. */
  lemma RejectionIndistinguishable(ctx: CryptContext, users: UsersTable, id1: int, login1: UserLogin, id2: int, login2: UserLogin)
    requires Authenticate(ctx, users, id1, login1).Rejected?
    requires Authenticate(ctx, users, id2, login2).Rejected?
    ensures Authenticate(ctx, users, id1, login1) == Authenticate(ctx, users, id2, login2)
  {
  }

  // ----- registration -------------------------------------------------------

  datatype CreateResponse = Created(userId: int) | CreateFailed {
    /** The `success` field of the response. */
    predicate Success() {
      Created?
    }
  }

  /**
   `create_user`. The password is hashed with a fresh `salt`; `inserted` is the
   database's answer to the INSERT: the generated `user_id`, or `None` when the
   statement raised (a duplicate email, a lost connection, any cause). An id
   the table already holds violates the primary key, so it fails too.
   Returns the response and the table after the transaction.
   */
  function CreateUser(ctx: CryptContext, users: UsersTable, profile: NewUser, salt: string, inserted: Option<int>)
    : (r: (CreateResponse, UsersTable))
    ensures r.0.Success() <==> inserted.Some? && inserted.value !in users
    ensures r.0.Created? ==>
              && r.0.userId == inserted.value
              && r.1.Keys == users.Keys + {r.0.userId}
              && r.1[r.0.userId].name == profile.name
              && r.1[r.0.userId].email == profile.email
              && r.1[r.0.userId].age == profile.age
              && r.1[r.0.userId].password == ctx.hash(profile.password, salt)
              && (forall id :: id in users ==> r.1[id] == users[id])
    ensures r.0.CreateFailed? ==> r.1 == users
  {
    var hashed := ctx.hash(profile.password, salt);
    match inserted
    case Some(id) =>
      if id in users then (CreateFailed, users)
      else (Created(id), users[id := UserRow(profile.name, profile.email, profile.age, hashed)])
    case None => (CreateFailed, users)
  }

  /** A new user can log in with the email and password it registered, given the library's promise. */
  lemma CreatedUserAuthenticates(ctx: CryptContext, users: UsersTable, profile: NewUser, salt: string, inserted: Option<int>)
    requires VerifiesOwnHash(ctx)
    requires CreateUser(ctx, users, profile, salt, inserted).0.Created?
    ensures var (resp, users') := CreateUser(ctx, users, profile, salt, inserted);
            Authenticate(ctx, users', resp.userId, UserLogin(profile.email, profile.password)).Authenticated?
  {
  }

  // ----- profile update -----------------------------------------------------

  datatype UpdateResponse = Updated | UpdateFailed | Unauthorized(error: HttpError) {
    /** The `success` field, when the endpoint returns normally. */
    predicate Success() {
      Updated?
    }
  }

  /**
   `update_user`: authenticate against `userId` first (raising 401 on
   failure), then overwrite name, email and age of that row. `committed` is
   false when the UPDATE raised a database error, in which case the
   transaction rolls back. Returns the response and the table afterwards.
   */
  function UpdateUser(ctx: CryptContext, users: UsersTable, userId: int, login: UserLogin, altered: UserUpdate, committed: bool)
    : (r: (UpdateResponse, UsersTable))
    // no write without authentication
    ensures Authenticate(ctx, users, userId, login).Rejected? ==> r == (Unauthorized(InvalidCredentials), users)
    ensures r.0.Success() <==> Authenticate(ctx, users, userId, login).Authenticated? && committed
    ensures !r.0.Success() ==> r.1 == users
    // only a failed authentication answers 401; a failed UPDATE answers `success: false`
    ensures r.0.Unauthorized? <==> Authenticate(ctx, users, userId, login).Rejected?
    ensures Authenticate(ctx, users, userId, login).Authenticated? && !committed ==> r.0 == UpdateFailed
    // a successful update rewrites only name, email and age of the one row
    ensures r.0.Success() ==>
              && r.1.Keys == users.Keys
              && r.1[userId].name == altered.name
              && r.1[userId].email == altered.email
              && r.1[userId].age == altered.age
              && r.1[userId].password == users[userId].password
              && (forall id :: id in users && id != userId ==> r.1[id] == users[id])
  {
    match Authenticate(ctx, users, userId, login)
    case Rejected(error) => (Unauthorized(error), users)
    case Authenticated(_) =>
      if !committed then (UpdateFailed, users)
      else
        var row := users[userId];
        (Updated, users[userId := UserRow(altered.name, altered.email, altered.age, row.password)])
  }

  /** After an update the user logs in with the new email and the unchanged password. */
  lemma UpdatedUserAuthenticates(ctx: CryptContext, users: UsersTable, userId: int, login: UserLogin, altered: UserUpdate, committed: bool)
    requires UpdateUser(ctx, users, userId, login, altered, committed).0.Success()
    ensures var users' := UpdateUser(ctx, users, userId, login, altered, committed).1;
            Authenticate(ctx, users', userId, UserLogin(altered.email, login.password)).Authenticated?
  {
  }

  /** An update never changes whether, or as whom, anyone else authenticates. */
  lemma UpdateKeepsOthersAuthentication(ctx: CryptContext, users: UsersTable, userId: int, login: UserLogin, altered: UserUpdate,
                                        committed: bool, otherId: int, otherLogin: UserLogin)
    requires otherId != userId
    ensures var users' := UpdateUser(ctx, users, userId, login, altered, committed).1;
            Authenticate(ctx, users', otherId, otherLogin) == Authenticate(ctx, users, otherId, otherLogin)
  {
  }

  /** Repeating a successful update with the new email leaves the table as the first update left it. */
  lemma UpdateIdempotent(ctx: CryptContext, users: UsersTable, userId: int, login: UserLogin, altered: UserUpdate)
    requires UpdateUser(ctx, users, userId, login, altered, true).0.Success()
    ensures var users' := UpdateUser(ctx, users, userId, login, altered, true).1;
            var login' := UserLogin(altered.email, login.password);
            UpdateUser(ctx, users', userId, login', altered, true) == (Updated, users')
  {
    var users' := UpdateUser(ctx, users, userId, login, altered, true).1;
    UpdatedUserAuthenticates(ctx, users, userId, login, altered, true);
    var row := users'[userId];
    assert UserRow(altered.name, altered.email, altered.age, row.password) == row;
    assert users'[userId := row] == users';
  }
}
