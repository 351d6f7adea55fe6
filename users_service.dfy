/**
 * The staff account (users) service: the paged list newest first, lookup by
 * id, and create, update and delete with the e-mail uniqueness check the
 * service makes before it writes. No answer of this service carries the
 * password hash: every one is a `UserResponse`. The password hash function
 * (bcrypt), the clock and the fresh id Prisma assigns are parameters.
 */
module UsersService {
  import opened Wrappers
  import opened JsString
  import opened Errors
  import opened Records
  import opened Tables
  import opened Sorting
  import opened Queries
  import opened Paging
  import opened Response
  import opened Store

  const EmailTaken := "Email sudah terdaftar"

  // ---------------------------------------------------------------------------
  // List

  /** `PaginationDTO`; either field may be absent. */
  datatype UsersPaging = UsersPaging(page: Option<int>, limit: Option<int>)

  datatype UserList = UserList(data: seq<UserResponse>, pagination: Pagination)

  /** The defaults of `getAllUsers`: page 1, 10 per page. */
  function PageOf(p: UsersPaging): int { p.page.GetOr(1) }
  function LimitOf(p: UsersPaging): int { p.limit.GetOr(10) }

  /** Every account, newest `createdAt` first: what the pages are cut from. */
  function NewestUsers(users: seq<User>): (r: seq<User>)
    ensures multiset(r) == multiset(users)
    ensures forall i, j | 0 <= i < j < |r| :: r[i].createdAt >= r[j].createdAt
  {
    UserCreatedDescPreorder();
    SortBy(users, UserCreatedDesc)
  }

  /** The response form of each row, in order (`select` without `password`). */
  function Responses(rows: seq<User>): (r: seq<UserResponse>)
    ensures |r| == |rows| && forall i | 0 <= i < |rows| :: r[i] == ToResponse(rows[i])
  {
    seq(|rows|, i requires 0 <= i < |rows| => ToResponse(rows[i]))
  }

  /** The rows of the requested page, newest first (`orderBy: { createdAt: 'desc' }`, `skip`, `take`). */
  function UserPageRows(users: seq<User>, p: UsersPaging): (r: seq<User>)
    requires PageOf(p) >= 1 && LimitOf(p) >= 1
    ensures |r| <= LimitOf(p)
    ensures forall u | u in r :: u in users
    ensures forall i, j | 0 <= i < j < |r| :: r[i].createdAt >= r[j].createdAt
  {
    var rows := NewestUsers(users);
    var r := Window(rows, Skip(PageOf(p), LimitOf(p)), LimitOf(p));
    forall u | u in r ensures u in users {
      var k :| 0 <= k < |r| && r[k] == u;
      assert rows[Skip(PageOf(p), LimitOf(p)) + k] in multiset(rows);
    }
    r
  }

  /**
   * `getAllUsers`: one page of accounts, newest first, and the number of
   * accounts and of pages. The page and limit come from the controller,
   * which never passes a value below 1 once the query schema has accepted
   * the request.
   */
  method GetAllUsers(db: Db, pagination: UsersPaging) returns (result: UserList)
    requires PageOf(pagination) >= 1 && LimitOf(pagination) >= 1
    ensures result.data == Responses(UserPageRows(db.users, pagination))
    ensures result.pagination == PaginationOf(PageOf(pagination), LimitOf(pagination), |db.users|)
  {
    var page := pagination.page.GetOr(1);
    var limit := pagination.limit.GetOr(10);
    var skip := (page - 1) * limit;
    var total := |db.users|;
    var users := Responses(Window(NewestUsers(db.users), skip, limit));
    result := UserList(users, PaginationOf(page, limit, total));
  }

  /** Every account is on some page that exists. */
  lemma UserListedOnSomePage(users: seq<User>, limit: int, u: User)
    requires limit >= 1 && u in users
    ensures exists page | 1 <= page <= CeilDiv(|users|, limit) ::
      u in UserPageRows(users, UsersPaging(Some(page), Some(limit)))
  {
    var rows := NewestUsers(users);
    assert u in multiset(rows);
    var i :| 0 <= i < |rows| && rows[i] == u;
    RowListedOnPage(rows, limit, i);
    var page := i / limit + 1;
    var p := UsersPaging(Some(page), Some(limit));
    assert UserPageRows(users, p) == Window(rows, Skip(page, limit), limit);
    assert UserPageRows(users, p)[i - Skip(page, limit)] == u;
  }

  // ---------------------------------------------------------------------------
  // Lookup

  /** What `getUserById` answers for the table `rows`: 404 `User tidak ditemukan`, or the account. */
  function UserById(rows: seq<User>, id: string): (r: Result<UserResponse, Thrown>)
    ensures id !in Keys(rows, UserId) <==> r == Err(App(NotFoundError("User")))
    ensures r.Ok? ==> r.value.id == id && exists u | u in rows :: ToResponse(u) == r.value
  {
    var user := Find(rows, UserId, id);
    if user.None? then Err(App(NotFoundError("User"))) else Ok(ToResponse(user.value))
  }

  /** With unique ids, each stored account's answer is its own response form. */
  lemma UserByIdOfRow(rows: seq<User>, k: int)
    requires Unique(rows, UserId) && 0 <= k < |rows|
    ensures UserById(rows, rows[k].id) == Ok(ToResponse(rows[k]))
  {
    IndexOfUnique(rows, UserId, k);
  }

  /** `getUserById`. */
  method GetUserById(db: Db, id: string) returns (r: Result<UserResponse, Thrown>)
    ensures r == UserById(db.users, id)
  {
    var user := Find(db.users, UserId, id);
    if user.None? {
      return Err(App(NotFoundError("User")));
    }
    r := Ok(ToResponse(user.value));
  }

  // ---------------------------------------------------------------------------
  // Create

  /** `CreateUserDTO` (and `RegisterDTO`): the password in plain text. */
  datatype NewUser = NewUser(nama: string, email: string, password: string, role: Role)

  /** The row `prisma.user.create` writes: the hash in place of the password, both time stamps now. */
  function CreatedUser(data: NewUser, id: string, now: int, hash: string -> string): (u: User)
    ensures u.id == id && u.email == data.email && u.password == hash(data.password)
    ensures u.nama == data.nama && u.role == data.role
  {
    User(id, data.nama, data.email, hash(data.password), data.role, now, now)
  }

  /**
   * `createUser`: 409 `Email sudah terdaftar` when the e-mail is taken, and
   * nothing is written; otherwise the account is stored with the hash of its
   * password and answered without it.
   */
  method CreateUser(db: Db, data: NewUser, id: string, now: int, hash: string -> string)
    returns (r: Result<UserResponse, Thrown>)
    requires db.Valid()
    modifies db
    ensures db.Valid()
    ensures r.Err? ==> unchanged(db)
    ensures data.email in old(Keys(db.users, UserEmail)) ==> r == Err(App(ConflictError(EmailTaken)))
    ensures data.email !in old(Keys(db.users, UserEmail)) && id in old(Keys(db.users, UserId)) ==>
      r == Err(UniqueViolation("id"))
    ensures data.email !in old(Keys(db.users, UserEmail)) && id !in old(Keys(db.users, UserId)) ==>
      r == Ok(ToResponse(CreatedUser(data, id, now, hash)))
      && db.users == old(db.users) + [CreatedUser(data, id, now, hash)]
      && db.lansia == old(db.lansia) && db.checkups == old(db.checkups)
  {
    var existingUser := Find(db.users, UserEmail, data.email);
    if existingUser.Some? {
      return Err(App(ConflictError(EmailTaken)));
    }
    var hashedPassword := hash(data.password);
    var user := db.InsertUser(User(id, data.nama, data.email, hashedPassword, data.role, now, now));
    if user.Err? {
      return Err(user.error);
    }
    r := Ok(ToResponse(user.value));
  }

  // ---------------------------------------------------------------------------
  // Update

  /** `UpdateUserDTO`: the fields the client sent; the password in plain text. */
  datatype UserChanges = UserChanges(nama: Option<string>, email: Option<string>, password: Option<string>, role: Option<Role>)

  /**
   * The columns `updateUser` writes: name, e-mail and role as sent (an absent
   * one is skipped), and the hash of the password only when a non-empty one
   * was sent.
   */
  function UserUpdateData(changes: UserChanges, hash: string -> string): (p: UserPatch)
    ensures p.nama == changes.nama && p.email == changes.email && p.role == changes.role
    ensures p.password.Some? <==> Truthy(changes.password)
    ensures p.password.Some? ==> p.password.value == hash(changes.password.value)
  {
    var updateData := UserPatch(changes.nama, changes.email, None, changes.role);
    if Truthy(changes.password) then updateData.(password := Some(hash(changes.password.value))) else updateData
  }

  /** The guard in front of the e-mail lookup: a non-empty e-mail other than the stored one. */
  predicate EmailChanged(changes: UserChanges, existing: User) {
    Truthy(changes.email) && changes.email.value != existing.email
  }

  /**
   * `updateUser`: 404 for an unknown id; 409 `Email sudah terdaftar` when a
   * changed e-mail belongs to another account; otherwise the update is
   * written and answered without the hash. An empty e-mail skips the lookup
   * but is still written, and the unique index then refuses it when another
   * account holds it. Every refusal writes nothing.
   */
  method UpdateUser(db: Db, id: string, changes: UserChanges, now: int, hash: string -> string)
    returns (r: Result<UserResponse, Thrown>)
    requires db.Valid()
    modifies db
    ensures db.Valid()
    ensures r.Err? ==> unchanged(db)
    ensures id !in old(Keys(db.users, UserId)) ==> r == Err(App(NotFoundError("User")))
    ensures id in old(Keys(db.users, UserId)) ==>
      var i := IndexOf(old(db.users), UserId, id);
      var row := PatchUser(old(db.users)[i], UserUpdateData(changes, hash), now);
      if EmailChanged(changes, old(db.users)[i]) && changes.email.value in old(Keys(db.users, UserEmail))
      then r == Err(App(ConflictError(EmailTaken)))
      else (
        if exists j | 0 <= j < |old(db.users)| && j != i :: old(db.users)[j].email == row.email
        then r == Err(UniqueViolation("email"))
        else r == Ok(ToResponse(row)) && db.users == old(db.users)[i := row] && db.lansia == old(db.lansia) && db.checkups == old(db.checkups))
  {
    var existingUser := Find(db.users, UserId, id);
    if existingUser.None? {
      return Err(App(NotFoundError("User")));
    }
    if Truthy(changes.email) && changes.email.value != existingUser.value.email {
      var emailExists := Find(db.users, UserEmail, changes.email.value);
      if emailExists.Some? {
        return Err(App(ConflictError(EmailTaken)));
      }
    }
    var updateData := UserPatch(changes.nama, changes.email, None, changes.role);
    if Truthy(changes.password) {
      updateData := updateData.(password := Some(hash(changes.password.value)));
    }
    var user := db.UpdateUser(id, updateData, now);
    if user.Err? {
      return Err(user.error);
    }
    r := Ok(ToResponse(user.value));
  }

  /**
   * What an update leaves of an account: the fields not sent are kept, and
   * the stored hash changes only when a non-empty password was sent, to the
   * hash of that password.
   */
  lemma UpdateKeepsUnsentFields(u: User, changes: UserChanges, now: int, hash: string -> string)
    ensures var row := PatchUser(u, UserUpdateData(changes, hash), now);
      row.id == u.id && row.createdAt == u.createdAt
      && (changes.nama.None? ==> row.nama == u.nama)
      && (changes.email.None? ==> row.email == u.email)
      && (changes.role.None? ==> row.role == u.role)
      && (!Truthy(changes.password) ==> row.password == u.password)
      && (Truthy(changes.password) ==> row.password == hash(changes.password.value))
  {
  }

  /** An update that leaves out the e-mail, or repeats the stored one, never meets an e-mail conflict. */
  lemma SameEmailNoConflict(rows: seq<User>, i: int, changes: UserChanges, now: int, hash: string -> string)
    requires Unique(rows, UserEmail) && 0 <= i < |rows|
    requires changes.email.None? || changes.email.value == rows[i].email
    ensures !EmailChanged(changes, rows[i])
    ensures forall j | 0 <= j < |rows| && j != i :: rows[j].email != PatchUser(rows[i], UserUpdateData(changes, hash), now).email
  {
    var row := PatchUser(rows[i], UserUpdateData(changes, hash), now);
    assert row.email == rows[i].email;
    forall j | 0 <= j < |rows| && j != i ensures rows[j].email != row.email {
      assert UserEmail(rows[j]) != UserEmail(rows[i]);
    }
  }

  // ---------------------------------------------------------------------------
  // Delete

  /**
   * `deleteUser`: 404 for an unknown id; an account that still authors a
   * checkup is refused by the foreign key (P2003) and stays; otherwise it goes.
   */
  method DeleteUser(db: Db, id: string) returns (r: Result<(), Thrown>)
    requires db.Valid()
    modifies db
    ensures db.Valid()
    ensures id !in old(Keys(db.users, UserId)) ==> r == Err(App(NotFoundError("User"))) && unchanged(db)
    ensures id in old(Keys(db.users, UserId)) && id in old(Keys(db.checkups, CheckupAuthor)) ==>
      r == Err(ForeignKeyViolation("createdBy")) && unchanged(db)
    ensures id in old(Keys(db.users, UserId)) && id !in old(Keys(db.checkups, CheckupAuthor)) ==>
      r.Ok? && db.users == RemoveAt(old(db.users), IndexOf(old(db.users), UserId, id))
      && db.lansia == old(db.lansia) && db.checkups == old(db.checkups)
    ensures r.Ok? ==> id !in Keys(db.users, UserId)
  {
    var existingUser := Find(db.users, UserId, id);
    if existingUser.None? {
      return Err(App(NotFoundError("User")));
    }
    ghost var i := IndexOf(db.users, UserId, id);
    RemoveAtKeysUnique(db.users, i, UserId);
    r := db.DeleteUser(id);
  }
}
