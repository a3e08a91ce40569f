/**
 * The per-request authentication gate. It reads the Authorization header,
 * and, for a "Bearer " token, resolves the subject, validates the token and
 * stores an authentication in the security context when none is there yet.
 * Every exception inside is swallowed, and the rest of the chain runs
 * exactly once on every path. The user's enabled flag is not consulted.
 */
module JwtAuthentication {
  import opened Wrappers
  import opened Text
  import opened Exceptions
  import opened Entities
  import opened Repository
  import opened Persistence
  import opened JwtUtil
  import opened UserDetailsServices

  /** A `UsernamePasswordAuthenticationToken`: principal, credentials and authorities. */
  datatype Authentication = Authentication(principal: User, credentials: Option<string>, authorities: seq<string>)

  /** The request's security context; it holds at most one authentication. */
  class SecurityContext {
    var authentication: Option<Authentication>

    constructor ()
      ensures authentication == None
    {
      authentication := None;
    }
  }

  /** The rest of the filter chain; only the number of times it is invoked is observed. */
  class FilterChain {
    var invocations: nat

    constructor ()
      ensures invocations == 0
    {
      invocations := 0;
    }

    method DoFilter()
      modifies this
      ensures invocations == old(invocations) + 1
    {
      invocations := invocations + 1;
    }
  }

  const BearerPrefix: string := "Bearer "

  /** The authentication a user is given by the filter. */
  function AuthenticationOf(user: User): Authentication {
    Authentication(user, None, user.Authorities())
  }

  /**
   * The try block of the filter for the extracted token: either the first
   * exception, or the authentication the context holds afterwards.
   */
  function Attempt(config: JwtConfig, users: UserTable, token: string, current: Option<Authentication>, now: Instant)
    : (r: Result<Option<Authentication>>)
    requires UniqueUsernames(users)
    ensures ExtractUsername(config, token, now).Ok? && (ExtractUsername(config, token, now).value.None? || current.Some?) ==>
      r == Ok(current)
    ensures ExtractUsername(config, token, now).Err? ==> r == Err(ExtractUsername(config, token, now).error)
    ensures r.Ok? && r.value != current ==>
      && current.None?
      && r.value.Some?
      && r.value.value == AuthenticationOf(r.value.value.principal)
      && r.value.value.principal in users.Values
      && ExtractUsername(config, token, now) == Ok(Some(r.value.value.principal.username))
      && ValidateToken(config, token, r.value.value.principal, now) == Ok(true)
    ensures r.Err? && ExtractUsername(config, token, now).Ok? ==>
      && current.None?
      && ExtractUsername(config, token, now).value.Some?
      && var username := ExtractUsername(config, token, now).value.value;
         || (!ExistsByUsername(users, username) && r == Err(UsernameNotFound("Kullanıcı bulunamadı: " + username)))
         || (ExistsByUsername(users, username)
             && ValidateToken(config, token, FindByUsername(users, username).value, now).Err?
             && r.error == ValidateToken(config, token, FindByUsername(users, username).value, now).error)
  {
    var username :- ExtractUsername(config, token, now);
    if username.Some? && current.None? then
      var userDetails :- LoadUserByUsername(users, username.value);
      var valid :- ValidateToken(config, token, userDetails, now);
      if valid then Ok(Some(AuthenticationOf(userDetails))) else Ok(current)
    else
      Ok(current)
  }

  /**
   * The authentication in the context after `doFilterInternal`, given the
   * header and the authentication before it.
   */
  function AuthenticationAfter(
    config: JwtConfig, users: UserTable, header: Option<string>, current: Option<Authentication>, now: Instant)
    : (r: Option<Authentication>)
    requires UniqueUsernames(users)
    ensures header.None? || !StartsWith(header.value, BearerPrefix) ==> r == current
    ensures current.Some? ==> r == current
    ensures r != current ==>
      && current.None?
      && header.Some? && StartsWith(header.value, BearerPrefix)
      && r.Some?
      && r.value.principal in users.Values
      && r.value.credentials.None?
      && r.value.authorities == r.value.principal.Authorities()
      && ExtractUsername(config, header.value[7..], now) == Ok(Some(r.value.principal.username))
      && ValidateToken(config, header.value[7..], r.value.principal, now) == Ok(true)
  {
    if header.None? || !StartsWith(header.value, BearerPrefix) then current
    else
      match Attempt(config, users, header.value[7..], current, now)
      case Ok(a) => a
      case Err(_) => current
  }

  /**
   * With no authentication yet, a bearer token authenticates exactly when
   * its subject names a stored user for whom the token validates; the
   * stored authentication then carries that user's authorities.
   */
  lemma BearerTokenAuthenticatesIff(config: JwtConfig, users: UserTable, token: string, now: Instant)
    requires UniqueUsernames(users)
    ensures var after := AuthenticationAfter(config, users, Some(BearerPrefix + token), None, now);
      after.Some? <==>
        && ExtractUsername(config, token, now).Ok?
        && ExtractUsername(config, token, now).value.Some?
        && ExistsByUsername(users, ExtractUsername(config, token, now).value.value)
        && ValidateToken(config, token, FindByUsername(users, ExtractUsername(config, token, now).value.value).value, now) == Ok(true)
    ensures var after := AuthenticationAfter(config, users, Some(BearerPrefix + token), None, now);
      after.Some? ==> after == Some(AuthenticationOf(FindByUsername(users, ExtractUsername(config, token, now).value.value).value))
  {
    PrefixedStartsWith(BearerPrefix, token);
  }

  /**
   * A token issued for a stored user authenticates that user until it
   * expires, whether or not the user is still enabled.
   */
  lemma IssuedTokenAuthenticates(
    config: JwtConfig, users: UserTable, id: Id, issuedClock: Instant, expiryClock: Instant, now: Instant)
    requires UniqueUsernames(users)
    requires Sound(config.jws)
    requires id in users
    requires now <= expiryClock + config.expiration
    ensures AuthenticationAfter(config, users, Some(BearerPrefix + GenerateTokenFor(config, users[id], issuedClock, expiryClock)), None, now) ==
      Some(AuthenticationOf(users[id]))
  {
    var token := GenerateTokenFor(config, users[id], issuedClock, expiryClock);
    PrefixedStartsWith(BearerPrefix, token);
    GeneratedTokenClaims(config, users[id].username, issuedClock, expiryClock, now);
    FreshTokenValidates(config, users[id], issuedClock, expiryClock, now);
    assert LoadUserByUsername(users, users[id].username) == Ok(users[id]);
  }

  /** A deactivated user with an unexpired token is still authenticated at this layer. */
  lemma DeactivatedUserStillAuthenticated(
    config: JwtConfig, users: UserTable, id: Id, issuedClock: Instant, expiryClock: Instant, now: Instant)
    requires UniqueUsernames(users)
    requires Sound(config.jws)
    requires id in users && !users[id].IsEnabled()
    requires now <= expiryClock + config.expiration
    ensures AuthenticationAfter(config, users, Some(BearerPrefix + GenerateTokenFor(config, users[id], issuedClock, expiryClock)), None, now).Some?
  {
    IssuedTokenAuthenticates(config, users, id, issuedClock, expiryClock, now);
  }

  /** A token whose expiration has passed never establishes an authentication. */
  lemma ExpiredTokenNeverAuthenticates(config: JwtConfig, users: UserTable, token: string, now: Instant)
    requires UniqueUsernames(users)
    requires ExtractAllClaims(config, token, now).Ok?
    requires ExpiredAt(ExtractAllClaims(config, token, now).value, now)
    ensures AuthenticationAfter(config, users, Some(BearerPrefix + token), None, now) == None
  {
    PrefixedStartsWith(BearerPrefix, token);
    var username := ExtractUsername(config, token, now);
    if username.Ok? && username.value.Some? && ExistsByUsername(users, username.value.value) {
      ExpiredTokenNeverValidates(config, token, FindByUsername(users, username.value.value).value, now);
    }
  }

  class JwtAuthenticationFilter {
    const config: JwtConfig
    const store: Store

    constructor (config: JwtConfig, store: Store)
      ensures this.config == config && this.store == store
    {
      this.config := config;
      this.store := store;
    }

    /** `doFilterInternal` for a request whose Authorization header is `header`. */
    method DoFilterInternal(header: Option<string>, context: SecurityContext, chain: FilterChain, now: Instant)
      requires UniqueUsernames(store.users)
      modifies context, chain
      ensures context.authentication == AuthenticationAfter(config, store.users, header, old(context.authentication), now)
      ensures chain.invocations == old(chain.invocations) + 1
    {
      if header.None? || !StartsWith(header.value, BearerPrefix) {
        chain.DoFilter();
        return;
      }
      var jwt := header.value[7..];
      // try: the first Err ends the block, as an exception reaching the catch would
      var username := ExtractUsername(config, jwt, now);
      if username.Ok? && username.value.Some? && context.authentication.None? {
        var userDetails := LoadUserByUsername(store.users, username.value.value);
        if userDetails.Ok? {
          var valid := ValidateToken(config, jwt, userDetails.value, now);
          if valid.Ok? && valid.value {
            context.authentication := Some(AuthenticationOf(userDetails.value));
          }
        }
      }
      chain.DoFilter();
    }
  }
}
