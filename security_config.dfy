/**
 * The access policy of the security filter chain: an ordered list of path
 * rules where the first match decides, ending in "any other request must be
 * authenticated". The JWT filter runs before the rules are applied, on a
 * context that starts empty because sessions are stateless.
 */
module SecurityConfiguration {
  import opened Wrappers
  import opened Text
  import opened Entities
  import opened Repository
  import opened JwtUtil
  import opened JwtAuthentication

  datatype Access = PermitAll | RequireAuthenticated

  datatype Rule = Rule(patterns: seq<string>, access: Access)

  /** The `requestMatchers(...)` rules in order; `anyRequest().authenticated()` follows them. */
  const Rules: seq<Rule> := [
    Rule(["/auth/**"], PermitAll),
    Rule(["/v3/api-docs/**", "/swagger-ui/**", "/swagger-ui.html"], PermitAll),
    Rule(["/actuator/**"], PermitAll)
  ]

  // A path pattern: one ending in "/" then two stars matches its base and everything
  // below it; any other pattern matches only itself.
  predicate PatternMatches(pattern: string, path: string) {
    if |pattern| >= 3 && pattern[|pattern| - 3..] == "/**" then
      var base := pattern[..|pattern| - 3];
      path == base || StartsWith(path, base + "/")
    else
      path == pattern
  }

  predicate RuleMatches(rule: Rule, path: string) {
    exists i :: 0 <= i < |rule.patterns| && PatternMatches(rule.patterns[i], path)
  }

  /** The access the first matching rule grants, or that of `anyRequest()`. */
  function AccessFor(rules: seq<Rule>, path: string): (r: Access)
    ensures (forall i :: 0 <= i < |rules| ==> !RuleMatches(rules[i], path)) ==> r == RequireAuthenticated
    ensures forall i :: 0 <= i < |rules| && RuleMatches(rules[i], path) && (forall j :: 0 <= j < i ==> !RuleMatches(rules[j], path)) ==>
      r == rules[i].access
  {
    if rules == [] then RequireAuthenticated
    else if RuleMatches(rules[0], path) then rules[0].access
    else AccessFor(rules[1..], path)
  }

  /** Whether a request for `path` may proceed, given whether its context is authenticated. */
  predicate Permits(path: string, authenticated: bool)
    ensures Permits(path, authenticated) <==> PublicPath(path) || authenticated
  {
    RulesPermitExactlyPublicPaths(path);
    AccessFor(Rules, path) == PermitAll || authenticated
  }

  predicate Under(path: string, base: string) {
    path == base || StartsWith(path, base + "/")
  }

  /** The public paths, written out. */
  predicate PublicPath(path: string) {
    || Under(path, "/auth")
    || Under(path, "/v3/api-docs")
    || Under(path, "/swagger-ui")
    || path == "/swagger-ui.html"
    || Under(path, "/actuator")
  }

  /** The rules permit exactly the public paths; every other path falls through to `anyRequest()`. */
  lemma {:induction false} RulesPermitExactlyPublicPaths(path: string)
    ensures AccessFor(Rules, path) == PermitAll <==> PublicPath(path)
  {
    assert PatternMatches("/auth/**", path) <==> Under(path, "/auth");
    assert PatternMatches("/v3/api-docs/**", path) <==> Under(path, "/v3/api-docs");
    assert PatternMatches("/swagger-ui/**", path) <==> Under(path, "/swagger-ui");
    assert PatternMatches("/swagger-ui.html", path) <==> path == "/swagger-ui.html";
    assert PatternMatches("/actuator/**", path) <==> Under(path, "/actuator");
    assert RuleMatches(Rules[0], path) <==> Under(path, "/auth") by {
      assert Rules[0].patterns == ["/auth/**"];
      if Under(path, "/auth") { assert PatternMatches(Rules[0].patterns[0], path); }
    }
    assert RuleMatches(Rules[1], path) <==> Under(path, "/v3/api-docs") || Under(path, "/swagger-ui") || path == "/swagger-ui.html" by {
      var ps := Rules[1].patterns;
      assert ps == ["/v3/api-docs/**", "/swagger-ui/**", "/swagger-ui.html"];
      if Under(path, "/v3/api-docs") { assert PatternMatches(ps[0], path); }
      if Under(path, "/swagger-ui") { assert PatternMatches(ps[1], path); }
      if path == "/swagger-ui.html" { assert PatternMatches(ps[2], path); }
    }
    assert RuleMatches(Rules[2], path) <==> Under(path, "/actuator") by {
      assert Rules[2].patterns == ["/actuator/**"];
      if Under(path, "/actuator") { assert PatternMatches(Rules[2].patterns[0], path); }
    }
    assert Rules[1..][0] == Rules[1] && Rules[1..][1..][0] == Rules[2];
    assert Rules[1..][1..][1..] == [];
    assert AccessFor(Rules[1..][1..][1..], path) == RequireAuthenticated;
    assert AccessFor(Rules[1..][1..], path) == PermitAll <==> RuleMatches(Rules[2], path);
    assert AccessFor(Rules[1..], path) == PermitAll <==> RuleMatches(Rules[1], path) || RuleMatches(Rules[2], path);
    assert AccessFor(Rules, path) == PermitAll <==>
      RuleMatches(Rules[0], path) || RuleMatches(Rules[1], path) || RuleMatches(Rules[2], path);
  }

  /** Every path under /auth is permitted without authentication. */
  lemma AuthPathsArePublic(rest: string)
    ensures Permits("/auth", false)
    ensures Permits("/auth/" + rest, false)
  {
    PrefixedStartsWith("/auth/", rest);
  }

  /**
   * The filter then the rules: whether a request passes authorization,
   * starting from an empty context.
   */
  predicate Admitted(config: JwtConfig, users: UserTable, header: Option<string>, path: string, now: Instant)
    requires UniqueUsernames(users)
  {
    Permits(path, AuthenticationAfter(config, users, header, None, now).Some?)
  }

  /**
   * A public path is reached whatever the header holds, a bad token
   * included; any other path is reached exactly when the filter
   * authenticated the request, so never without a bearer header.
   */
  lemma AdmissionFollowsFilter(config: JwtConfig, users: UserTable, header: Option<string>, path: string, now: Instant)
    requires UniqueUsernames(users)
    ensures PublicPath(path) ==> Admitted(config, users, header, path, now)
    ensures !PublicPath(path) ==>
      (Admitted(config, users, header, path, now) <==> AuthenticationAfter(config, users, header, None, now).Some?)
    ensures !PublicPath(path) && (header.None? || !StartsWith(header.value, BearerPrefix)) ==>
      !Admitted(config, users, header, path, now)
  {
  }
}
