/**
 * Sign-in, registration and the current user. Password hashing and checking
 * (bcrypt) and token signing (JWT) are parameters: `hash` turns a password
 * into the stored hash, `compare(password, hash)` checks one, and `sign`
 * turns a payload into a token.
 */
module AuthService {
  import opened Wrappers
  import opened Errors
  import opened Records
  import opened Tables
  import opened Store
  import UsersService

  /** The one message of a failed sign-in, whatever the cause. */
  const BadCredentials := "Email atau password salah"

  /** `LoginDTO`. */
  datatype LoginData = LoginData(email: string, password: string)

  /** `LoginResponse`: the session token and the account without its hash. */
  datatype LoginResponse = LoginResponse(token: string, user: UserResponse)

  /** The claims `login` signs: the account's id, e-mail and role. */
  function PayloadOf(u: User): (p: JwtPayload)
    ensures p.userId == u.id && p.email == u.email && p.role == u.role
  {
    JwtPayload(u.id, u.email, u.role)
  }

  /**
   * `login`: the account with the given e-mail, if the password matches its
   * hash, receives a token signed over its id, e-mail and role. An unknown
   * e-mail and a wrong password fail with the same 401.
   */
  function Login(users: seq<User>, data: LoginData, compare: (string, string) -> bool, sign: JwtPayload -> string)
    : (r: Result<LoginResponse, Thrown>)
    ensures r.Ok? <==> (data.email in Keys(users, UserEmail)
                        && compare(data.password, Find(users, UserEmail, data.email).value.password))
    ensures r.Err? ==> r.error == App(UnauthorizedError(Some(BadCredentials)))
    ensures r.Ok? ==> (r.value.user.email == data.email
                       && r.value.token == sign(JwtPayload(r.value.user.id, data.email, r.value.user.role)))
  {
    var user := Find(users, UserEmail, data.email);
    if user.None? then Err(App(UnauthorizedError(Some(BadCredentials))))
    else if !compare(data.password, user.value.password) then Err(App(UnauthorizedError(Some(BadCredentials))))
    else
      var token := sign(PayloadOf(user.value));
      Ok(LoginResponse(token, ToResponse(user.value)))
  }

  /** With unique e-mails, signing in as a stored account succeeds exactly when its hash accepts the password. */
  lemma LoginOfRow(users: seq<User>, k: int, password: string, compare: (string, string) -> bool, sign: JwtPayload -> string)
    requires Unique(users, UserEmail) && 0 <= k < |users|
    ensures var r := Login(users, LoginData(users[k].email, password), compare, sign);
      if compare(password, users[k].password)
      then r == Ok(LoginResponse(sign(PayloadOf(users[k])), ToResponse(users[k])))
      else r == Err(App(UnauthorizedError(Some(BadCredentials))))
  {
    IndexOfUnique(users, UserEmail, k);
  }

  /**
   * A caller cannot tell an unregistered e-mail from a wrong password: both
   * answers are the same error.
   */
  lemma LoginFailuresIndistinguishable(users: seq<User>, unknown: LoginData, wrong: LoginData,
                                       compare: (string, string) -> bool, sign: JwtPayload -> string)
    requires unknown.email !in Keys(users, UserEmail)
    requires wrong.email in Keys(users, UserEmail)
    requires !compare(wrong.password, Find(users, UserEmail, wrong.email).value.password)
    ensures Login(users, unknown, compare, sign) == Login(users, wrong, compare, sign)
  {
  }

  /** `register` stores and answers exactly as `createUser` does. */
  method Register(db: Db, data: UsersService.NewUser, id: string, now: int, hash: string -> string)
    returns (r: Result<UserResponse, Thrown>)
    requires db.Valid()
    modifies db
    ensures db.Valid()
    ensures r.Err? ==> unchanged(db)
    ensures data.email in old(Keys(db.users, UserEmail)) ==> r == Err(App(ConflictError(UsersService.EmailTaken)))
    ensures data.email !in old(Keys(db.users, UserEmail)) && id in old(Keys(db.users, UserId)) ==>
      r == Err(UniqueViolation("id"))
    ensures data.email !in old(Keys(db.users, UserEmail)) && id !in old(Keys(db.users, UserId)) ==>
      r == Ok(ToResponse(UsersService.CreatedUser(data, id, now, hash)))
      && db.users == old(db.users) + [UsersService.CreatedUser(data, id, now, hash)]
      && db.lansia == old(db.lansia) && db.checkups == old(db.checkups)
  {
    r := UsersService.CreateUser(db, data, id, now, hash);
  }

  /**
   * Whoever has just registered can sign in with the same e-mail and
   * password, and the token carries the new account's id, e-mail and role —
   * provided the hash function and the check agree on that password.
   */
  lemma LoginAfterRegister(users: seq<User>, data: UsersService.NewUser, id: string, now: int,
                           hash: string -> string, compare: (string, string) -> bool, sign: JwtPayload -> string)
    requires Unique(users, UserEmail) && data.email !in Keys(users, UserEmail)
    requires compare(data.password, hash(data.password))
    ensures var row := UsersService.CreatedUser(data, id, now, hash);
      Login(users + [row], LoginData(data.email, data.password), compare, sign)
        == Ok(LoginResponse(sign(JwtPayload(id, data.email, data.role)), ToResponse(row)))
  {
    var row := UsersService.CreatedUser(data, id, now, hash);
    AppendUnique(users, row, UserEmail);
    var after := users + [row];
    assert after[|users|] == row;
    LoginOfRow(after, |users|, data.password, compare, sign);
  }

  /** `getCurrentUser`: the account the token names, or 404 `User tidak ditemukan`. */
  method GetCurrentUser(db: Db, userId: string) returns (r: Result<UserResponse, Thrown>)
    ensures r == UsersService.UserById(db.users, userId)
    ensures r.Err? <==> userId !in Keys(db.users, UserId)
  {
    var user := Find(db.users, UserId, userId);
    if user.None? {
      return Err(App(NotFoundError("User")));
    }
    r := Ok(ToResponse(user.value));
  }
}
