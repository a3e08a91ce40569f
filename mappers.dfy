/**
 * Entity-to-DTO projections. A null entity maps to null, a null list to
 * the empty list, and a list maps element by element in order. The user
 * projection never exposes the password hash.
 */
module Mappers {
  import opened Wrappers
  import opened Entities
  import opened Repository

  datatype UserResponse = UserResponse(
    id: Id,
    username: string,
    email: string,
    fullName: Option<string>,
    role: Role,
    active: bool,
    organizationId: Id,
    organizationName: string,
    createdAt: Instant,
    updatedAt: Instant)

  datatype OrganizationResponse = OrganizationResponse(
    id: Id,
    name: string,
    description: Option<string>,
    active: bool,
    createdAt: Instant,
    updatedAt: Instant)

  /** Whether a user's organization can be read from `organizations`. */
  predicate Resolvable(user: Option<User>, organizations: OrganizationTable) {
    user.Some? ==> user.value.organizationId in organizations
  }

  /** `UserMapper.toResponse`: the user's public fields and its organization's id and name. */
  function UserToResponse(user: Option<User>, organizations: OrganizationTable): (r: Option<UserResponse>)
    requires Resolvable(user, organizations)
    ensures r.None? <==> user.None?
    ensures r.Some? ==>
      var u := user.value;
      && r.value.id == u.base.id && r.value.username == u.username && r.value.email == u.email
      && r.value.fullName == u.fullName && r.value.role == u.role && r.value.active == u.active
      && r.value.organizationId == u.organizationId
      && r.value.organizationName == organizations[u.organizationId].name
      && r.value.createdAt == u.base.createdAt && r.value.updatedAt == u.base.updatedAt
  {
    match user
    case None => None
    case Some(u) =>
      Some(UserResponse(u.base.id, u.username, u.email, u.fullName, u.role, u.active,
        u.organizationId, organizations[u.organizationId].name, u.base.createdAt, u.base.updatedAt))
  }

  /** The stream `map(toResponse)` of `UserMapper.toResponseList`. */
  function UsersToResponses(users: seq<Option<User>>, organizations: OrganizationTable): (r: seq<Option<UserResponse>>)
    requires forall i :: 0 <= i < |users| ==> Resolvable(users[i], organizations)
    ensures |r| == |users|
    ensures forall i :: 0 <= i < |users| ==> r[i] == UserToResponse(users[i], organizations)
  {
    if users == [] then []
    else [UserToResponse(users[0], organizations)] + UsersToResponses(users[1..], organizations)
  }

  /** `UserMapper.toResponseList`: a null list becomes the empty list. */
  function UserToResponseList(users: Option<seq<Option<User>>>, organizations: OrganizationTable)
    : (r: seq<Option<UserResponse>>)
    requires users.Some? ==> forall i :: 0 <= i < |users.value| ==> Resolvable(users.value[i], organizations)
    ensures users.None? ==> r == []
    ensures users.Some? ==> |r| == |users.value|
    ensures users.Some? ==> forall i :: 0 <= i < |r| ==> r[i] == UserToResponse(users.value[i], organizations)
  {
    match users
    case None => []
    case Some(list) => UsersToResponses(list, organizations)
  }

  /** Users that differ only in their password hash have the same response. */
  lemma ResponseHidesPassword(user: User, password: string, organizations: OrganizationTable)
    requires user.organizationId in organizations
    ensures UserToResponse(Some(user), organizations) == UserToResponse(Some(user.(password := password)), organizations)
  {
  }

  /** Mapping a concatenation maps each part; the list map distributes over `+`. */
  lemma UsersToResponsesAppend(a: seq<Option<User>>, b: seq<Option<User>>, organizations: OrganizationTable)
    requires forall i :: 0 <= i < |a| ==> Resolvable(a[i], organizations)
    requires forall i :: 0 <= i < |b| ==> Resolvable(b[i], organizations)
    ensures forall i :: 0 <= i < |a + b| ==> Resolvable((a + b)[i], organizations)
    ensures UsersToResponses(a + b, organizations) == UsersToResponses(a, organizations) + UsersToResponses(b, organizations)
  {
  }

  /** `OrganizationMapper.toResponse`: every public field copied unchanged. */
  function OrganizationToResponse(organization: Option<Organization>): (r: Option<OrganizationResponse>)
    ensures r.None? <==> organization.None?
    ensures r.Some? ==>
      var o := organization.value;
      && r.value.id == o.base.id && r.value.name == o.name && r.value.description == o.description
      && r.value.active == o.active && r.value.createdAt == o.base.createdAt && r.value.updatedAt == o.base.updatedAt
  {
    match organization
    case None => None
    case Some(o) => Some(OrganizationResponse(o.base.id, o.name, o.description, o.active, o.base.createdAt, o.base.updatedAt))
  }

  /** The stream `map(toResponse)` of `OrganizationMapper.toResponseList`. */
  function OrganizationsToResponses(organizations: seq<Option<Organization>>): (r: seq<Option<OrganizationResponse>>)
    ensures |r| == |organizations|
    ensures forall i :: 0 <= i < |organizations| ==> r[i] == OrganizationToResponse(organizations[i])
  {
    if organizations == [] then []
    else [OrganizationToResponse(organizations[0])] + OrganizationsToResponses(organizations[1..])
  }

  /** `OrganizationMapper.toResponseList`: a null list becomes the empty list. */
  function OrganizationToResponseList(organizations: Option<seq<Option<Organization>>>): (r: seq<Option<OrganizationResponse>>)
    ensures organizations.None? ==> r == []
    ensures organizations.Some? ==> |r| == |organizations.value|
    ensures organizations.Some? ==> forall i :: 0 <= i < |r| ==> r[i] == OrganizationToResponse(organizations.value[i])
  {
    match organizations
    case None => []
    case Some(list) => OrganizationsToResponses(list)
  }
}
