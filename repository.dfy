/**
 * The derived queries of the user and organization repositories, over a
 * table that maps each primary key to its row. Every query is a plain
 * equality match over all rows: none of them looks at `deletedAt`.
 */
module Repository {
  import opened Wrappers
  import opened Entities

  type UserTable = map<Id, User>
  type OrganizationTable = map<Id, Organization>

  /** `findById`: the row stored under `id`, if any. */
  function FindById<T>(table: map<Id, T>, id: Id): (r: Option<T>)
    ensures r.Some? <==> id in table
    ensures r.Some? ==> r.value == table[id]
  {
    if id in table then Some(table[id]) else None
  }

  // ---- uniqueness constraints of the schema ----

  predicate UniqueUsernames(users: UserTable) {
    forall i, j :: i in users && j in users && users[i].username == users[j].username ==> i == j
  }

  predicate UniqueEmails(users: UserTable) {
    forall i, j :: i in users && j in users && users[i].email == users[j].email ==> i == j
  }

  predicate UniqueNames(organizations: OrganizationTable) {
    forall i, j :: i in organizations && j in organizations && organizations[i].name == organizations[j].name ==> i == j
  }

  // ---- UserRepository ----

  /** `existsByUsername`: whether any row, deleted or not, carries the username. */
  predicate ExistsByUsername(users: UserTable, username: string)
    ensures ExistsByUsername(users, username) <==> username in (set id | id in users :: users[id].username)
  {
    exists id :: id in users && users[id].username == username
  }

  /** `existsByEmail`: whether any row, deleted or not, carries the email. */
  predicate ExistsByEmail(users: UserTable, email: string)
    ensures ExistsByEmail(users, email) <==> email in (set id | id in users :: users[id].email)
  {
    exists id :: id in users && users[id].email == email
  }

  /** `findByUsername`: the one row carrying the username (the column is unique), or none. */
  function FindByUsername(users: UserTable, username: string): (r: Option<User>)
    requires UniqueUsernames(users)
    ensures r.Some? <==> ExistsByUsername(users, username)
    ensures r.Some? ==> r.value.username == username
    ensures forall id :: id in users && users[id].username == username ==> r == Some(users[id])
  {
    if ExistsByUsername(users, username) then
      var id :| id in users && users[id].username == username; Some(users[id])
    else
      None
  }

  /** `findByEmail`: the one row carrying the email (the column is unique), or none. */
  function FindByEmail(users: UserTable, email: string): (r: Option<User>)
    requires UniqueEmails(users)
    ensures r.Some? <==> ExistsByEmail(users, email)
    ensures r.Some? ==> r.value.email == email
    ensures forall id :: id in users && users[id].email == email ==> r == Some(users[id])
  {
    if ExistsByEmail(users, email) then
      var id :| id in users && users[id].email == email; Some(users[id])
    else
      None
  }

  // ---- OrganizationRepository ----

  /** `existsByName`: whether any organization, deleted or not, carries the name. */
  predicate ExistsByName(organizations: OrganizationTable, name: string)
    ensures ExistsByName(organizations, name) <==> name in (set id | id in organizations :: organizations[id].name)
  {
    exists id :: id in organizations && organizations[id].name == name
  }

  /** `findByName`: the one organization carrying the name (the column is unique), or none. */
  function FindByName(organizations: OrganizationTable, name: string): (r: Option<Organization>)
    requires UniqueNames(organizations)
    ensures r.Some? <==> ExistsByName(organizations, name)
    ensures r.Some? ==> r.value.name == name
    ensures forall id :: id in organizations && organizations[id].name == name ==> r == Some(organizations[id])
  {
    if ExistsByName(organizations, name) then
      var id :| id in organizations && organizations[id].name == name; Some(organizations[id])
    else
      None
  }

  // ---- soft-deleted rows are not filtered ----

  /** Soft-deleting a row changes the answer of no user query. */
  lemma SoftDeleteInvisibleToUserQueries(users: UserTable, id: Id, at: Instant, username: string, email: string)
    requires id in users
    ensures var deleted := users[id := users[id].(base := users[id].base.(deletedAt := Some(at)))];
      && (ExistsByUsername(deleted, username) <==> ExistsByUsername(users, username))
      && (ExistsByEmail(deleted, email) <==> ExistsByEmail(users, email))
      && (UniqueUsernames(users) ==> UniqueUsernames(deleted) && FindByUsername(deleted, username).Some? == FindByUsername(users, username).Some?)
      && (UniqueEmails(users) ==> UniqueEmails(deleted) && FindByEmail(deleted, email).Some? == FindByEmail(users, email).Some?)
  {
    var deleted := users[id := users[id].(base := users[id].base.(deletedAt := Some(at)))];
    if ExistsByUsername(users, username) {
      var k :| k in users && users[k].username == username;
      assert k in deleted && deleted[k].username == username;
    }
    if ExistsByUsername(deleted, username) {
      var k :| k in deleted && deleted[k].username == username;
      assert k in users && users[k].username == username;
    }
    if ExistsByEmail(users, email) {
      var k :| k in users && users[k].email == email;
      assert k in deleted && deleted[k].email == email;
    }
    if ExistsByEmail(deleted, email) {
      var k :| k in deleted && deleted[k].email == email;
      assert k in users && users[k].email == email;
    }
  }

  /** A soft-deleted user is still found by its username. */
  lemma DeletedUserStillFound(users: UserTable, id: Id)
    requires UniqueUsernames(users)
    requires id in users && users[id].base.IsDeleted()
    ensures ExistsByUsername(users, users[id].username)
    ensures FindByUsername(users, users[id].username) == Some(users[id])
  {
  }

  /** `existsByName(n)` holds exactly when `findByName(n)` is non-empty, deleted rows included. */
  lemma ExistsByNameIffFound(organizations: OrganizationTable, name: string)
    requires UniqueNames(organizations)
    ensures ExistsByName(organizations, name) <==> FindByName(organizations, name).Some?
    ensures forall id :: id in organizations && organizations[id].name == name && organizations[id].base.IsDeleted() ==>
      FindByName(organizations, name) == Some(organizations[id])
  {
  }

  // ---- writes that keep the uniqueness constraints ----

  /** Inserting a row whose username and email are both unused keeps both columns unique. */
  lemma InsertKeepsUsersUnique(users: UserTable, id: Id, u: User)
    requires UniqueUsernames(users) && UniqueEmails(users)
    requires id !in users
    requires !ExistsByUsername(users, u.username) && !ExistsByEmail(users, u.email)
    ensures UniqueUsernames(users[id := u]) && UniqueEmails(users[id := u])
  {
  }

  /** Replacing a row keeps both columns unique when each key is kept or was unused. */
  lemma ReplaceKeepsUsersUnique(users: UserTable, id: Id, u: User)
    requires UniqueUsernames(users) && UniqueEmails(users)
    requires id in users
    requires u.username == users[id].username || !ExistsByUsername(users, u.username)
    requires u.email == users[id].email || !ExistsByEmail(users, u.email)
    ensures UniqueUsernames(users[id := u]) && UniqueEmails(users[id := u])
  {
  }

  lemma InsertKeepsNamesUnique(organizations: OrganizationTable, id: Id, o: Organization)
    requires UniqueNames(organizations)
    requires id !in organizations
    requires !ExistsByName(organizations, o.name)
    ensures UniqueNames(organizations[id := o])
  {
  }

  lemma ReplaceKeepsNamesUnique(organizations: OrganizationTable, id: Id, o: Organization)
    requires UniqueNames(organizations)
    requires id in organizations
    requires o.name == organizations[id].name || !ExistsByName(organizations, o.name)
    ensures UniqueNames(organizations[id := o])
  {
  }
}
