/**
 * The persisted entities: the audit fields every entity shares, the
 * organization, the role enumeration and the user, together with the
 * identity-provider view Spring Security reads from a user.
 */
module Entities {
  import opened Wrappers

  /** A primary key (`Long`). */
  type Id = int

  /** A point in time (`LocalDateTime`, `Date`), in milliseconds. */
  type Instant = int

  /** The shared audit fields: key, creation and last-modification stamps, soft-delete stamp. */
  datatype Audit = Audit(id: Id, createdAt: Instant, updatedAt: Instant, deletedAt: Option<Instant>) {

    /** A row is soft-deleted when its deletion stamp is set. */
    predicate IsDeleted() {
      deletedAt.Some?
    }
  }

  /** The audit fields of an entity that has not been saved yet (null id and stamps). */
  const Unsaved: Audit := Audit(0, 0, 0, None)

  datatype Organization = Organization(
    base: Audit,
    name: string,
    description: Option<string>,
    active: bool)

  datatype Role = ADMIN | USER {

    /** `Role.name()`. */
    function Name(): string {
      match this
      case ADMIN => "ADMIN"
      case USER => "USER"
    }
  }

  /** The role an authority string names, if it names one. */
  function AuthorityRole(authority: string): Option<Role> {
    if authority == "ROLE_ADMIN" then Some(ADMIN)
    else if authority == "ROLE_USER" then Some(USER)
    else None
  }

  /** A user; `password` holds the encoded password, `organizationId` the owning organization. */
  datatype User = User(
    base: Audit,
    username: string,
    email: string,
    password: string,
    fullName: Option<string>,
    role: Role,
    active: bool,
    organizationId: Id)
  {

    /** `getAuthorities()`: the single authority "ROLE_" followed by the role's name. */
    function Authorities(): (a: seq<string>)
      ensures |a| == 1
      ensures a[0] == "ROLE_ADMIN" || a[0] == "ROLE_USER"
      ensures AuthorityRole(a[0]) == Some(role)
    {
      ["ROLE_" + role.Name()]
    }

    /** `isEnabled()`. */
    predicate IsEnabled() {
      active
    }

    predicate IsAccountNonExpired() {
      true
    }

    predicate IsAccountNonLocked() {
      true
    }

    predicate IsCredentialsNonExpired() {
      true
    }
  }

  /** The user builder; an `active` left unset takes the builder default. */
  function BuildUser(
    username: string, email: string, password: string, fullName: Option<string>,
    role: Role, active: Option<bool>, organizationId: Id): (r: User)
    ensures r.base == Unsaved
    ensures r.username == username && r.email == email && r.password == password && r.fullName == fullName
    ensures r.role == role && r.organizationId == organizationId
    ensures r.active == if active.Some? then active.value else true
  {
    User(Unsaved, username, email, password, fullName, role, active.GetOr(true), organizationId)
  }

  /** The organization builder; an `active` left unset takes the builder default. */
  function BuildOrganization(name: string, description: Option<string>, active: Option<bool>): (r: Organization)
    ensures r.base == Unsaved
    ensures r.name == name && r.description == description
    ensures r.active == if active.Some? then active.value else true
  {
    Organization(Unsaved, name, description, active.GetOr(true))
  }

  lemma BuildersDefaultActive(
    username: string, email: string, password: string, fullName: Option<string>,
    role: Role, organizationId: Id, name: string, description: Option<string>)
    ensures BuildUser(username, email, password, fullName, role, None, organizationId).active
    ensures BuildOrganization(name, description, None).active
  {
  }

  /** The enabled flag is the active flag, and the three account flags never block a user. */
  lemma AccountFlags(u: User)
    ensures u.IsEnabled() <==> u.active
    ensures u.IsAccountNonExpired() && u.IsAccountNonLocked() && u.IsCredentialsNonExpired()
  {
  }
}
