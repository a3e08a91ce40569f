/**
 * Token issuance and validation. A token is the compact string the JWS
 * library produces from a claim set and the signing secret; signing and
 * parsing are uninterpreted functions held in the configuration, and the
 * only thing assumed of them (`Sound`) is that a token signed with a secret
 * parses back to its claims under the same secret while it is unexpired.
 */
module JwtUtil {
  import opened Wrappers
  import opened Exceptions
  import opened Entities

  /** The registered claims the core uses, and any extra claims. */
  datatype Claims = Claims(
    subject: Option<string>,
    issuedAt: Option<Instant>,
    expiration: Option<Instant>,
    extra: map<string, string>)

  /** What the parser makes of a compact string: its claims, or the reason it throws. */
  datatype Parsed = Parsed(claims: Claims) | Rejected(reason: string)

  /**
   * The JWS library: `sign(claims, secret)` is `Jwts.builder()...signWith(key).compact()`,
   * `parse(token, secret, now)` is `Jwts.parser().verifyWith(key).build().parseSignedClaims(token)`
   * run at time `now`.
   */
  datatype Jws = Jws(sign: (Claims, string) -> string, parse: (string, string, Instant) -> Parsed)

  /** `jwt.secret`, `jwt.expiration` (milliseconds), and the library. */
  datatype JwtConfig = JwtConfig(secret: string, expiration: int, jws: Jws)

  /** The names of the registered claims the builder sets after the extra claims. */
  const RegisteredClaims: set<string> := {"sub", "iat", "exp"}

  predicate ExpiredAt(c: Claims, now: Instant) {
    c.expiration.Some? && c.expiration.value < now
  }

  /** A signed token parses back to its claims under the same secret until it expires. */
  ghost predicate Sound(jws: Jws) {
    forall c: Claims, secret: string, now: Instant ::
      !ExpiredAt(c, now) ==> jws.parse(jws.sign(c, secret), secret, now) == Parsed(c)
  }

  /** `extractAllClaims`: a token that fails parsing or signature verification throws. */
  function ExtractAllClaims(config: JwtConfig, token: string, now: Instant): (r: Result<Claims>)
    ensures r.Err? <==> config.jws.parse(token, config.secret, now).Rejected?
    ensures r.Err? ==> r.error.Jwt?
    ensures r.Ok? ==> config.jws.parse(token, config.secret, now) == Parsed(r.value)
  {
    match config.jws.parse(token, config.secret, now)
    case Parsed(c) => Ok(c)
    case Rejected(reason) => Err(Jwt(reason))
  }

  /** `extractUsername`: the subject claim, which may be absent (null). */
  function ExtractUsername(config: JwtConfig, token: string, now: Instant): (r: Result<Option<string>>)
    ensures r.Ok? <==> ExtractAllClaims(config, token, now).Ok?
    ensures r.Ok? ==> r.value == ExtractAllClaims(config, token, now).value.subject
    ensures r.Err? ==> r == Err(ExtractAllClaims(config, token, now).error) && r.error.Jwt?
  {
    var claims :- ExtractAllClaims(config, token, now);
    Ok(claims.subject)
  }

  /** `extractExpiration`: the expiration claim, which may be absent (null). */
  function ExtractExpiration(config: JwtConfig, token: string, now: Instant): (r: Result<Option<Instant>>)
    ensures r.Ok? <==> ExtractAllClaims(config, token, now).Ok?
    ensures r.Ok? ==> r.value == ExtractAllClaims(config, token, now).value.expiration
    ensures r.Err? ==> r == Err(ExtractAllClaims(config, token, now).error) && r.error.Jwt?
  {
    var claims :- ExtractAllClaims(config, token, now);
    Ok(claims.expiration)
  }

  /** `isTokenExpired`: the expiration lies strictly before now; a missing one is dereferenced as null. */
  function IsTokenExpired(config: JwtConfig, token: string, now: Instant): (r: Result<bool>)
    ensures r.Ok? <==> ExtractExpiration(config, token, now).Ok? && ExtractExpiration(config, token, now).value.Some?
    ensures r.Ok? ==> (r.value <==> ExtractExpiration(config, token, now).value.value < now)
  {
    var expiration :- ExtractExpiration(config, token, now);
    if expiration.None? then Err(NullPointer) else Ok(expiration.value < now)
  }

  /**
   * The claims `generateToken` signs. `issuedClock` and `expiryClock` are
   * the two readings of the clock the builder chain makes.
   */
  function IssuedClaims(
    config: JwtConfig, extra: map<string, string>, subject: string,
    issuedClock: Instant, expiryClock: Instant): (c: Claims)
    ensures c.subject == Some(subject) && c.issuedAt == Some(issuedClock)
    ensures c.expiration == Some(expiryClock + config.expiration)
    ensures c.extra.Keys == extra.Keys - RegisteredClaims
    ensures forall k :: k in c.extra ==> c.extra[k] == extra[k]
  {
    Claims(Some(subject), Some(issuedClock), Some(expiryClock + config.expiration), extra - RegisteredClaims)
  }

  /** `generateToken(String username)`. */
  function GenerateToken(config: JwtConfig, username: string, issuedClock: Instant, expiryClock: Instant): (token: string)
    ensures token == config.jws.sign(Claims(Some(username), Some(issuedClock), Some(expiryClock + config.expiration), map[]), config.secret)
  {
    config.jws.sign(IssuedClaims(config, map[], username, issuedClock, expiryClock), config.secret)
  }

  /** `generateToken(Map extraClaims, UserDetails userDetails)`: the subject overrides any extra "sub". */
  function GenerateTokenWithClaims(
    config: JwtConfig, extraClaims: map<string, string>, user: User,
    issuedClock: Instant, expiryClock: Instant): (token: string)
    ensures token == config.jws.sign(
      Claims(Some(user.username), Some(issuedClock), Some(expiryClock + config.expiration), extraClaims - RegisteredClaims),
      config.secret)
  {
    config.jws.sign(IssuedClaims(config, extraClaims, user.username, issuedClock, expiryClock), config.secret)
  }

  /** `generateToken(UserDetails userDetails)`: no extra claims. */
  function GenerateTokenFor(config: JwtConfig, user: User, issuedClock: Instant, expiryClock: Instant): (token: string)
    ensures token == GenerateToken(config, user.username, issuedClock, expiryClock)
  {
    GenerateTokenWithClaims(config, map[], user, issuedClock, expiryClock)
  }

  /**
   * `validateToken`: true exactly when the subject is the user's username and
   * the token is not expired. The expiry is only looked at when the subject
   * matches; parsing failures and a missing subject or expiration throw.
   */
  function ValidateToken(config: JwtConfig, token: string, user: User, now: Instant): (r: Result<bool>)
    ensures r == Ok(true) <==>
      ExtractUsername(config, token, now) == Ok(Some(user.username)) && IsTokenExpired(config, token, now) == Ok(false)
    ensures r == Ok(false) <==>
      || (ExtractUsername(config, token, now).Ok? && ExtractUsername(config, token, now).value.Some?
          && ExtractUsername(config, token, now).value.value != user.username)
      || (ExtractUsername(config, token, now) == Ok(Some(user.username)) && IsTokenExpired(config, token, now) == Ok(true))
    ensures ExtractAllClaims(config, token, now).Err? ==> r.Err?
  {
    var username :- ExtractUsername(config, token, now);
    if username.None? then Err(NullPointer)
    else if username.value != user.username then Ok(false)
    else
      var expired :- IsTokenExpired(config, token, now);
      Ok(!expired)
  }

  // ---- properties ----

  /**
   * Round trip: until it expires, a token from `generateToken(username)`
   * carries subject = username, issuedAt = the first clock reading and
   * expiration = the second reading + the configured lifetime.
   */
  lemma GeneratedTokenClaims(config: JwtConfig, username: string, issuedClock: Instant, expiryClock: Instant, now: Instant)
    requires Sound(config.jws)
    requires now <= expiryClock + config.expiration
    ensures ExtractAllClaims(config, GenerateToken(config, username, issuedClock, expiryClock), now) ==
      Ok(Claims(Some(username), Some(issuedClock), Some(expiryClock + config.expiration), map[]))
    ensures ExtractUsername(config, GenerateToken(config, username, issuedClock, expiryClock), now) == Ok(Some(username))
  {
    var c := IssuedClaims(config, map[], username, issuedClock, expiryClock);
    assert !ExpiredAt(c, now);
    assert config.jws.parse(config.jws.sign(c, config.secret), config.secret, now) == Parsed(c);
    assert c.extra == map[];
  }

  /** With one clock reading for both stamps, expiration is issuedAt plus the lifetime. */
  lemma ExpirationIsIssuedAtPlusLifetime(config: JwtConfig, username: string, clock: Instant, now: Instant)
    requires Sound(config.jws)
    requires now <= clock + config.expiration
    ensures var claims := ExtractAllClaims(config, GenerateToken(config, username, clock, clock), now);
      claims.Ok? && claims.value.issuedAt.Some? && claims.value.expiration == Some(claims.value.issuedAt.value + config.expiration)
  {
    GeneratedTokenClaims(config, username, clock, clock, now);
  }

  /** The token `generateToken(userDetails)` issues carries the user's username; extra claims cannot replace it. */
  lemma TokenWithClaimsCarriesUsername(
    config: JwtConfig, extraClaims: map<string, string>, user: User,
    issuedClock: Instant, expiryClock: Instant, now: Instant)
    requires Sound(config.jws)
    requires now <= expiryClock + config.expiration
    ensures ExtractUsername(config, GenerateTokenWithClaims(config, extraClaims, user, issuedClock, expiryClock), now) ==
      Ok(Some(user.username))
    ensures ExtractAllClaims(config, GenerateTokenWithClaims(config, extraClaims, user, issuedClock, expiryClock), now).Ok?
    ensures "sub" !in ExtractAllClaims(config, GenerateTokenWithClaims(config, extraClaims, user, issuedClock, expiryClock), now).value.extra
  {
    var c := IssuedClaims(config, extraClaims, user.username, issuedClock, expiryClock);
    assert !ExpiredAt(c, now);
    assert config.jws.parse(config.jws.sign(c, config.secret), config.secret, now) == Parsed(c);
  }

  /**
   * Expiry is strict: a freshly issued token validates for its own user up
   * to and including the instant of its expiration.
   */
  lemma FreshTokenValidates(config: JwtConfig, user: User, issuedClock: Instant, expiryClock: Instant, now: Instant)
    requires Sound(config.jws)
    requires now <= expiryClock + config.expiration
    ensures ValidateToken(config, GenerateTokenFor(config, user, issuedClock, expiryClock), user, now) == Ok(true)
  {
    GeneratedTokenClaims(config, user.username, issuedClock, expiryClock, now);
  }

  /** A fresh token never validates for a user with another username. */
  lemma TokenRejectsOtherUser(config: JwtConfig, owner: User, other: User, issuedClock: Instant, expiryClock: Instant, now: Instant)
    requires Sound(config.jws)
    requires now <= expiryClock + config.expiration
    requires other.username != owner.username
    ensures ValidateToken(config, GenerateTokenFor(config, owner, issuedClock, expiryClock), other, now) == Ok(false)
  {
    GeneratedTokenClaims(config, owner.username, issuedClock, expiryClock, now);
  }

  /** Whatever the library does, a token whose expiration has passed never validates. */
  lemma ExpiredTokenNeverValidates(config: JwtConfig, token: string, user: User, now: Instant)
    requires ExtractAllClaims(config, token, now).Ok?
    requires ExpiredAt(ExtractAllClaims(config, token, now).value, now)
    ensures ValidateToken(config, token, user, now) != Ok(true)
  {
  }
}
