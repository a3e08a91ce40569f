/** The identity resolver Spring Security calls: users are looked up in the user table by username. */
module UserDetailsServices {
  import opened Wrappers
  import opened Exceptions
  import opened Entities
  import opened Repository

  /**
   * `loadUserByUsername`: the stored user with exactly that username, or
   * UsernameNotFoundException when there is none. Being a function of the
   * table, it cannot change the store.
   */
  function LoadUserByUsername(users: UserTable, username: string): (r: Result<User>)
    requires UniqueUsernames(users)
    ensures r.Ok? <==> ExistsByUsername(users, username)
    ensures r.Ok? ==> r.value.username == username && r.value in users.Values
    ensures r.Err? ==> r.error == UsernameNotFound("Kullanıcı bulunamadı: " + username)
  {
    match FindByUsername(users, username)
    case Some(u) => Ok(u)
    case None => Err(UsernameNotFound("Kullanıcı bulunamadı: " + username))
  }

  /** Neither a soft-deleted nor a deactivated user is filtered out. */
  lemma LoadsEveryStoredUser(users: UserTable, id: Id)
    requires UniqueUsernames(users)
    requires id in users
    ensures LoadUserByUsername(users, users[id].username) == Ok(users[id])
  {
  }
}
