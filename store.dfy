/**
 * The database behind both repositories: one table of users and one of
 * organizations, with identity-generated keys and the schema's unique
 * columns. `Valid` is the state every committed transaction leaves behind.
 */
module Persistence {
  import opened Wrappers
  import opened Entities
  import opened Repository

  /**
   * The row a flush leaves for a loaded user that is written back as
   * `written`. An entity that is not dirty gets no UPDATE, so the auditing
   * listener does not run and the stored row stays as it was, `updatedAt`
   * included. A dirty entity is written with `updatedAt` set to `now`.
   * `createdAt` is not updatable in either case.
   */
  function FlushedUser(stored: User, written: User, now: Instant): (r: User)
    ensures written == stored ==> r == stored
    ensures r.(base := Unsaved) == written.(base := Unsaved)
    ensures r.base.id == written.base.id && r.base.deletedAt == written.base.deletedAt
    ensures r.base.createdAt == stored.base.createdAt
    ensures r.base.updatedAt == if written == stored then stored.base.updatedAt else now
  {
    if written == stored then stored
    else written.(base := written.base.(createdAt := stored.base.createdAt, updatedAt := now))
  }

  /** The same flush for an organization. */
  function FlushedOrganization(stored: Organization, written: Organization, now: Instant): (r: Organization)
    ensures written == stored ==> r == stored
    ensures r.(base := Unsaved) == written.(base := Unsaved)
    ensures r.base.id == written.base.id && r.base.deletedAt == written.base.deletedAt
    ensures r.base.createdAt == stored.base.createdAt
    ensures r.base.updatedAt == if written == stored then stored.base.updatedAt else now
  {
    if written == stored then stored
    else written.(base := written.base.(createdAt := stored.base.createdAt, updatedAt := now))
  }

  class Store {
    var users: UserTable
    var organizations: OrganizationTable
    var nextUserId: Id
    var nextOrganizationId: Id

    ghost predicate Valid()
      reads this
    {
      && (forall id :: id in users ==> users[id].base.id == id && id < nextUserId)
      && (forall id :: id in organizations ==> organizations[id].base.id == id && id < nextOrganizationId)
      && UniqueUsernames(users)
      && UniqueEmails(users)
      && UniqueNames(organizations)
      // the organization_id foreign key
      && (forall id :: id in users ==> users[id].organizationId in organizations)
    }

    constructor ()
      ensures Valid()
      ensures users == map[] && organizations == map[]
    {
      users, organizations := map[], map[];
      nextUserId, nextOrganizationId := 1, 1;
    }

    /** `save` of a new user: the next identity value becomes its key; both audit stamps are `now`. */
    method InsertUser(u: User, now: Instant) returns (saved: User)
      requires Valid()
      requires !ExistsByUsername(users, u.username) && !ExistsByEmail(users, u.email)
      requires u.organizationId in organizations
      modifies this
      ensures Valid()
      ensures saved == u.(base := Audit(old(nextUserId), now, now, u.base.deletedAt))
      ensures saved.base.id !in old(users)
      ensures users == old(users)[saved.base.id := saved]
      ensures organizations == old(organizations) && nextOrganizationId == old(nextOrganizationId)
    {
      saved := u.(base := Audit(nextUserId, now, now, u.base.deletedAt));
      InsertKeepsUsersUnique(users, nextUserId, saved);
      users := users[nextUserId := saved];
      nextUserId := nextUserId + 1;
    }

    /** `save` of a loaded user, followed by the flush at commit. */
    method SaveUser(u: User, now: Instant) returns (saved: User)
      requires Valid()
      requires u.base.id in users
      requires u.username == users[u.base.id].username || !ExistsByUsername(users, u.username)
      requires u.email == users[u.base.id].email || !ExistsByEmail(users, u.email)
      requires u.organizationId in organizations
      modifies this
      ensures Valid()
      ensures saved == FlushedUser(old(users[u.base.id]), u, now)
      ensures users == old(users)[u.base.id := saved]
      ensures organizations == old(organizations)
      ensures nextUserId == old(nextUserId) && nextOrganizationId == old(nextOrganizationId)
    {
      saved := FlushedUser(users[u.base.id], u, now);
      ReplaceKeepsUsersUnique(users, u.base.id, saved);
      users := users[u.base.id := saved];
    }

    /** `save` of a new organization. */
    method InsertOrganization(o: Organization, now: Instant) returns (saved: Organization)
      requires Valid()
      requires !ExistsByName(organizations, o.name)
      modifies this
      ensures Valid()
      ensures saved == o.(base := Audit(old(nextOrganizationId), now, now, o.base.deletedAt))
      ensures saved.base.id !in old(organizations)
      ensures organizations == old(organizations)[saved.base.id := saved]
      ensures users == old(users) && nextUserId == old(nextUserId)
    {
      saved := o.(base := Audit(nextOrganizationId, now, now, o.base.deletedAt));
      InsertKeepsNamesUnique(organizations, nextOrganizationId, saved);
      organizations := organizations[nextOrganizationId := saved];
      nextOrganizationId := nextOrganizationId + 1;
    }

    /** `save` of a loaded organization, followed by the flush at commit. */
    method SaveOrganization(o: Organization, now: Instant) returns (saved: Organization)
      requires Valid()
      requires o.base.id in organizations
      requires o.name == organizations[o.base.id].name || !ExistsByName(organizations, o.name)
      modifies this
      ensures Valid()
      ensures saved == FlushedOrganization(old(organizations[o.base.id]), o, now)
      ensures organizations == old(organizations)[o.base.id := saved]
      ensures users == old(users)
      ensures nextUserId == old(nextUserId) && nextOrganizationId == old(nextOrganizationId)
    {
      saved := FlushedOrganization(organizations[o.base.id], o, now);
      ReplaceKeepsNamesUnique(organizations, o.base.id, saved);
      organizations := organizations[o.base.id := saved];
    }
  }
}
