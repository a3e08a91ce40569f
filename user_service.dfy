/**
 * The user lifecycle service: lookups that throw NotFoundException, and
 * create, update, change-password and soft-delete operations that check
 * uniqueness and the owning organization before they write.
 *
 * The checks are pure functions of the tables (`...Rejection`: the
 * exception the operation throws, or `None` when it goes on to write); the
 * class performs the writes. Every failing call leaves the store unchanged.
 */
module UserServices {
  import opened Wrappers
  import opened Text
  import opened Exceptions
  import opened Entities
  import opened Repository
  import opened Persistence

  function UserNotFound(id: Id): Exception {
    NotFound("Kullanıcı bulunamadı: " + IntToString(id))
  }

  function UsernameNotFoundError(username: string): Exception {
    NotFound("Kullanıcı bulunamadı: " + username)
  }

  function UsernameTaken(username: string): Exception {
    Business("Bu username zaten kullanılıyor: " + username)
  }

  function EmailTaken(email: string): Exception {
    Business("Bu email zaten kullanılıyor: " + email)
  }

  function OrganizationNotFound(id: Id): Exception {
    NotFound("Organizasyon bulunamadı: " + IntToString(id))
  }

  /**
   * The exception `createUser` throws, if any. The username is checked
   * first, then the email, then the organization.
   */
  function CreateUserRejection(
    users: UserTable, organizations: OrganizationTable,
    username: string, email: string, organizationId: Id): (r: Option<Exception>)
    ensures ExistsByUsername(users, username) ==> r == Some(UsernameTaken(username))
    ensures !ExistsByUsername(users, username) && ExistsByEmail(users, email) ==> r == Some(EmailTaken(email))
    ensures !ExistsByUsername(users, username) && !ExistsByEmail(users, email) && organizationId !in organizations ==>
      r == Some(OrganizationNotFound(organizationId))
    ensures r.None? <==> !ExistsByUsername(users, username) && !ExistsByEmail(users, email) && organizationId in organizations
  {
    if ExistsByUsername(users, username) then Some(UsernameTaken(username))
    else if ExistsByEmail(users, email) then Some(EmailTaken(email))
    else if organizationId !in organizations then Some(OrganizationNotFound(organizationId))
    else None
  }

  /**
   * The checks of `createUser` are exact: a new row passes them exactly
   * when adding it keeps usernames and emails unique and its organization
   * exists.
   */
  lemma CreateUserCheckExact(users: UserTable, organizations: OrganizationTable, id: Id, u: User)
    requires UniqueUsernames(users) && UniqueEmails(users)
    requires id !in users
    ensures CreateUserRejection(users, organizations, u.username, u.email, u.organizationId).None? <==>
      UniqueUsernames(users[id := u]) && UniqueEmails(users[id := u]) && u.organizationId in organizations
  {
    var after := users[id := u];
    if ExistsByUsername(users, u.username) {
      var k :| k in users && users[k].username == u.username;
      assert k in after && after[k].username == after[id].username && k != id;
    } else if ExistsByEmail(users, u.email) {
      var k :| k in users && users[k].email == u.email;
      assert k in after && after[k].email == after[id].email && k != id;
    } else {
      InsertKeepsUsersUnique(users, id, u);
    }
  }

  /** A soft-deleted user's username still blocks a new user with that username. */
  lemma DeletedUsernameStillTaken(
    users: UserTable, organizations: OrganizationTable, id: Id, at: Instant, email: string, organizationId: Id)
    requires id in users
    ensures var deleted := users[id := users[id].(base := users[id].base.(deletedAt := Some(at)))];
      CreateUserRejection(deleted, organizations, users[id].username, email, organizationId) ==
        Some(UsernameTaken(users[id].username))
  {
    var deleted := users[id := users[id].(base := users[id].base.(deletedAt := Some(at)))];
    assert deleted[id].username == users[id].username;
  }

  /**
   * The exception `updateUser` throws, if any: the user must exist, and a
   * changed email must be unused. Re-submitting one's own email passes.
   */
  function UpdateUserRejection(users: UserTable, id: Id, email: string): (r: Option<Exception>)
    ensures id !in users ==> r == Some(UserNotFound(id))
    ensures id in users && email == users[id].email ==> r.None?
    ensures r.None? <==> id in users && (email == users[id].email || !ExistsByEmail(users, email))
    ensures r.Some? && id in users ==> r == Some(EmailTaken(email))
  {
    if id !in users then Some(UserNotFound(id))
    else if users[id].email != email && ExistsByEmail(users, email) then Some(EmailTaken(email))
    else None
  }

  /**
   * The check of `updateUser` is exact: a replacement row that keeps the
   * username passes exactly when it keeps the emails unique.
   */
  lemma UpdateUserCheckExact(users: UserTable, id: Id, u: User)
    requires UniqueUsernames(users) && UniqueEmails(users)
    requires id in users && u.username == users[id].username
    ensures UpdateUserRejection(users, id, u.email).None? <==> UniqueEmails(users[id := u])
  {
    var after := users[id := u];
    if u.email != users[id].email && ExistsByEmail(users, u.email) {
      var k :| k in users && users[k].email == u.email;
      assert k != id && k in after && after[k].email == after[id].email;
    } else {
      ReplaceKeepsUsersUnique(users, id, u);
    }
  }

  class UserService {
    const store: Store
    /** `PasswordEncoder.encode` (BCrypt), an uninterpreted function. */
    const encode: string -> string

    constructor (store: Store, encode: string -> string)
      ensures this.store == store && this.encode == encode
    {
      this.store := store;
      this.encode := encode;
    }

    /** `getUserById`: the row under `id`, soft-deleted or not. */
    function GetUserById(id: Id): (r: Result<User>)
      reads store
      ensures r.Ok? <==> id in store.users
      ensures r.Ok? ==> r.value == store.users[id]
      ensures r.Err? ==> r.error == UserNotFound(id)
    {
      match FindById(store.users, id)
      case Some(u) => Ok(u)
      case None => Err(UserNotFound(id))
    }

    /** `getUserByUsername`: the row with that username, soft-deleted or not. */
    function GetUserByUsername(username: string): (r: Result<User>)
      reads store
      requires UniqueUsernames(store.users)
      ensures r.Ok? <==> ExistsByUsername(store.users, username)
      ensures r.Ok? ==> r.value.username == username && r.value in store.users.Values
      ensures r.Err? ==> r.error == UsernameNotFoundError(username)
    {
      match FindByUsername(store.users, username)
      case Some(u) => Ok(u)
      case None => Err(UsernameNotFoundError(username))
    }

    method CreateUser(
      username: string, email: string, password: string, fullName: Option<string>,
      role: Role, organizationId: Id, now: Instant) returns (r: Result<User>)
      requires store.Valid()
      modifies store
      ensures store.Valid()
      ensures r.Err? <==> CreateUserRejection(old(store.users), old(store.organizations), username, email, organizationId).Some?
      ensures r.Err? ==> Some(r.error) == CreateUserRejection(old(store.users), old(store.organizations), username, email, organizationId)
      ensures r.Err? ==> unchanged(store)
      ensures r.Ok? ==>
        && r.value.base.id !in old(store.users)
        && r.value == User(Audit(r.value.base.id, now, now, None), username, email, encode(password), fullName, role, true, organizationId)
        && store.users == old(store.users)[r.value.base.id := r.value]
      ensures store.organizations == old(store.organizations)
    {
      if ExistsByUsername(store.users, username) {
        return Err(UsernameTaken(username));
      }
      if ExistsByEmail(store.users, email) {
        return Err(EmailTaken(email));
      }
      var organization := FindById(store.organizations, organizationId);
      if organization.None? {
        return Err(OrganizationNotFound(organizationId));
      }
      var encodedPassword := encode(password);
      var user := BuildUser(username, email, encodedPassword, fullName, role, Some(true), organization.value.base.id);
      var saved := store.InsertUser(user, now);
      return Ok(saved);
    }

    /** `updateUser`: only the email and the full name change. */
    method UpdateUser(id: Id, email: string, fullName: Option<string>, now: Instant) returns (r: Result<User>)
      requires store.Valid()
      modifies store
      ensures store.Valid()
      ensures r.Err? <==> UpdateUserRejection(old(store.users), id, email).Some?
      ensures r.Err? ==> Some(r.error) == UpdateUserRejection(old(store.users), id, email)
      ensures r.Err? ==> unchanged(store)
      ensures r.Ok? ==> id in old(store.users)
      ensures r.Ok? ==>
        var before := old(store.users)[id];
        && r.value == FlushedUser(before, before.(email := email, fullName := fullName), now)
        && store.users == old(store.users)[id := r.value]
      ensures r.Ok? && email == old(store.users)[id].email && fullName == old(store.users)[id].fullName ==>
        r.value == old(store.users)[id] && store.users == old(store.users)
      ensures store.organizations == old(store.organizations)
    {
      var found := GetUserById(id);
      if found.Err? {
        return found;
      }
      var user := found.value;
      if user.email != email && ExistsByEmail(store.users, email) {
        return Err(EmailTaken(email));
      }
      user := user.(email := email, fullName := fullName);
      var updated := store.SaveUser(user, now);
      return Ok(updated);
    }

    /** `changePassword`: only the password changes, to the encoding of the new one. */
    method ChangePassword(id: Id, newPassword: string, now: Instant) returns (r: Result<()>)
      requires store.Valid()
      modifies store
      ensures store.Valid()
      ensures r.Err? <==> id !in old(store.users)
      ensures r.Err? ==> r.error == UserNotFound(id) && unchanged(store)
      ensures r.Ok? ==> id in old(store.users)
      ensures r.Ok? ==>
        var before := old(store.users)[id];
        store.users == old(store.users)[id := FlushedUser(before, before.(password := encode(newPassword)), now)]
      ensures store.organizations == old(store.organizations)
    {
      var found := GetUserById(id);
      if found.Err? {
        return Err(found.error);
      }
      var user := found.value;
      var encodedPassword := encode(newPassword);
      user := user.(password := encodedPassword);
      var _ := store.SaveUser(user, now);
      return Ok(());
    }

    /** `deleteUser`: a soft delete; the row stays and is still found by id and by username. */
    method DeleteUser(id: Id, now: Instant) returns (r: Result<()>)
      requires store.Valid()
      modifies store
      ensures store.Valid()
      ensures r.Err? <==> id !in old(store.users)
      ensures r.Err? ==> r.error == UserNotFound(id) && unchanged(store)
      ensures r.Ok? ==> id in old(store.users)
      ensures r.Ok? ==>
        var before := old(store.users)[id];
        store.users == old(store.users)[id := FlushedUser(before, before.(base := before.base.(deletedAt := Some(now))), now)]
      ensures r.Ok? ==> GetUserById(id).Ok? && GetUserById(id).value.base.deletedAt == Some(now)
      ensures r.Ok? ==> GetUserByUsername(old(store.users)[id].username) == GetUserById(id)
      ensures store.organizations == old(store.organizations)
    {
      var found := GetUserById(id);
      if found.Err? {
        return Err(found.error);
      }
      var user := found.value;
      user := user.(base := user.base.(deletedAt := Some(now)));
      var _ := store.SaveUser(user, now);
      return Ok(());
    }
  }
}
