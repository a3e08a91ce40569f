/**
 * Login and registration. Login authenticates the credentials, issues a
 * token for the authenticated principal and reports its role; every failure
 * becomes the same BusinessException. Registration creates a USER in the
 * requested organization, or in organization 1 when none is given.
 */
module AuthServices {
  import opened Wrappers
  import opened Exceptions
  import opened Entities
  import opened Repository
  import opened Persistence
  import opened JwtUtil
  import opened UserDetailsServices
  import opened UserServices

  const InvalidCredentialsMessage: string := "Kullanıcı adı veya şifre hatalı"
  const RegisteredMessage: string := "Kullanıcı başarıyla oluşturuldu"
  const DefaultOrganizationId: Id := 1
  const FallbackRole: string := "ROLE_USER"

  datatype LoginRequest = LoginRequest(username: string, password: string)

  /** `tokenType` is the builder default "Bearer". */
  datatype LoginResponse = LoginResponse(token: string, tokenType: string, username: string, role: string)

  datatype RegisterRequest = RegisterRequest(
    username: string, email: string, password: string,
    fullName: Option<string>, organizationId: Option<Id>)

  /**
   * `authenticationManager.authenticate`: the provider loads the user by
   * username and `accepts` (password matching and account checks, left
   * uninterpreted) decides; the principal is the loaded user.
   */
  function Authenticate(users: UserTable, accepts: (User, string) -> bool, username: string, password: string): (r: Result<User>)
    requires UniqueUsernames(users)
    ensures r.Ok? <==> ExistsByUsername(users, username) && accepts(FindByUsername(users, username).value, password)
    ensures r.Ok? ==> r.value == FindByUsername(users, username).value && r.value.username == username
  {
    var principal :- LoadUserByUsername(users, username);
    if accepts(principal, password) then Ok(principal) else Err(AuthenticationFailed)
  }

  /** `stream().findFirst().map(getAuthority).orElse(fallback)`. */
  function FirstAuthorityOr(authorities: seq<string>, fallback: string): (r: string)
    ensures |authorities| > 0 ==> r == authorities[0]
    ensures authorities == [] ==> r == fallback
  {
    if |authorities| > 0 then authorities[0] else fallback
  }

  /**
   * `login`. `issuedClock` and `expiryClock` are the clock readings taken
   * while the token is generated.
   */
  function Login(
    config: JwtConfig, users: UserTable, accepts: (User, string) -> bool,
    request: LoginRequest, issuedClock: Instant, expiryClock: Instant): (r: Result<LoginResponse>)
    requires UniqueUsernames(users)
    ensures r.Err? ==> r.error == Business(InvalidCredentialsMessage)
    ensures r.Ok? <==> Authenticate(users, accepts, request.username, request.password).Ok?
    ensures r.Ok? ==> r.value.username == request.username && r.value.tokenType == "Bearer"
    ensures r.Ok? ==> r.value.token == GenerateToken(config, request.username, issuedClock, expiryClock)
  {
    match Authenticate(users, accepts, request.username, request.password)
    case Err(_) => Err(Business(InvalidCredentialsMessage))
    case Ok(principal) =>
      var token := GenerateTokenFor(config, principal, issuedClock, expiryClock);
      var role := FirstAuthorityOr(principal.Authorities(), FallbackRole);
      Ok(LoginResponse(token, "Bearer", request.username, role))
  }

  /**
   * A missing user and a wrong password are indistinguishable: both give
   * the one generic BusinessException.
   */
  lemma LoginFailuresIndistinguishable(
    config: JwtConfig, users: UserTable, accepts: (User, string) -> bool,
    unknown: LoginRequest, wrongPassword: LoginRequest, issuedClock: Instant, expiryClock: Instant)
    requires UniqueUsernames(users)
    requires !ExistsByUsername(users, unknown.username)
    requires ExistsByUsername(users, wrongPassword.username)
    requires !accepts(FindByUsername(users, wrongPassword.username).value, wrongPassword.password)
    ensures Login(config, users, accepts, unknown, issuedClock, expiryClock) == Err(Business(InvalidCredentialsMessage))
    ensures Login(config, users, accepts, unknown, issuedClock, expiryClock) ==
      Login(config, users, accepts, wrongPassword, issuedClock, expiryClock)
  {
  }

  /** The reported role is the stored user's role as an authority; the fallback is never used. */
  lemma LoginRoleIsStoredRole(
    config: JwtConfig, users: UserTable, accepts: (User, string) -> bool,
    request: LoginRequest, issuedClock: Instant, expiryClock: Instant, id: Id)
    requires UniqueUsernames(users)
    requires id in users && users[id].username == request.username
    requires Login(config, users, accepts, request, issuedClock, expiryClock).Ok?
    ensures Login(config, users, accepts, request, issuedClock, expiryClock).value.role == "ROLE_" + users[id].role.Name()
    ensures AuthorityRole(Login(config, users, accepts, request, issuedClock, expiryClock).value.role) == Some(users[id].role)
  {
    var principal := Authenticate(users, accepts, request.username, request.password).value;
    assert principal == users[id];
    assert principal.Authorities() == ["ROLE_" + users[id].role.Name()];
  }

  /** Until it expires, the token of a successful login names the user who logged in. */
  lemma LoginTokenNamesUser(
    config: JwtConfig, users: UserTable, accepts: (User, string) -> bool,
    request: LoginRequest, issuedClock: Instant, expiryClock: Instant, now: Instant)
    requires UniqueUsernames(users)
    requires Sound(config.jws)
    requires now <= expiryClock + config.expiration
    requires Login(config, users, accepts, request, issuedClock, expiryClock).Ok?
    ensures ExtractUsername(config, Login(config, users, accepts, request, issuedClock, expiryClock).value.token, now) ==
      Ok(Some(request.username))
  {
    GeneratedTokenClaims(config, request.username, issuedClock, expiryClock, now);
  }

  /** The organization a registration joins. */
  function RegistrationOrganization(request: RegisterRequest): (id: Id)
    ensures request.organizationId.Some? ==> id == request.organizationId.value
    ensures request.organizationId.None? ==> id == DefaultOrganizationId
  {
    request.organizationId.GetOr(DefaultOrganizationId)
  }

  class AuthService {
    const userService: UserService

    constructor (userService: UserService)
      ensures this.userService == userService
    {
      this.userService := userService;
    }

    /**
     * `register`: `createUser` with role USER and the registration's
     * organization; its exceptions propagate, and success yields a fixed
     * confirmation rather than a token.
     */
    method Register(request: RegisterRequest, now: Instant) returns (r: Result<string>)
      requires userService.store.Valid()
      modifies userService.store
      ensures userService.store.Valid()
      ensures r.Err? <==> CreateUserRejection(old(userService.store.users), old(userService.store.organizations),
        request.username, request.email, RegistrationOrganization(request)).Some?
      ensures r.Err? ==> Some(r.error) == CreateUserRejection(old(userService.store.users), old(userService.store.organizations),
        request.username, request.email, RegistrationOrganization(request))
      ensures r.Err? ==> unchanged(userService.store)
      ensures r.Ok? ==> r.value == RegisteredMessage
      ensures r.Ok? ==> exists id ::
        && id in userService.store.users
        && id !in old(userService.store.users)
        && userService.store.users == old(userService.store.users)[id := User(
             Audit(id, now, now, None), request.username, request.email, userService.encode(request.password),
             request.fullName, USER, true, RegistrationOrganization(request))]
      ensures userService.store.organizations == old(userService.store.organizations)
    {
      var orgId := RegistrationOrganization(request);
      var created := userService.CreateUser(
        request.username, request.email, request.password, request.fullName, USER, orgId, now);
      if created.Err? {
        return Err(created.error);
      }
      assert created.value.base.id in userService.store.users;
      return Ok(RegisteredMessage);
    }
  }
}
