# spring-saas-core in Dafny

A model of the core of a multi-tenant Spring Boot backend. Users belong to
organizations. Both kinds of entity are created, updated and soft-deleted
through two services that check unique columns and the owning
organization before they write. Clients sign in with a username and a
password and receive a signed bearer token (JWT). A servlet filter turns
that token back into an authenticated principal on every request. An
ordered list of path rules decides which requests need one. Exceptions
become a uniform JSON envelope with an error code and an HTTP status. Two
mappers project entities onto response DTOs.

The modules follow the source:

| file | module | source |
|---|---|---|
| wrappers.dfy, exceptions.dfy, text.dfy | `Wrappers`, `Exceptions`, `Text` | Optional, the exception classes, `String.startsWith` and `Long` concatenation |
| entities.dfy | `Entities` | BaseEntity, Organization, Role, User (its UserDetails view) |
| repository.dfy | `Repository` | UserRepository, OrganizationRepository, as pure queries over tables |
| store.dfy | `Persistence` | the database behind them: a class holding both tables |
| user_service.dfy, organization_service.dfy | `UserServices`, `OrganizationServices` | the two service implementations |
| jwt_util.dfy | `JwtUtil` | JwtUtil |
| user_details.dfy | `UserDetailsServices` | CustomUserDetailsService |
| auth_service.dfy | `AuthServices` | AuthService |
| jwt_filter.dfy | `JwtAuthentication` | JwtAuthenticationFilter |
| security_config.dfy | `SecurityConfiguration` | SecurityConfig's filter chain |
| api_response.dfy, exception_handler.dfy | `Responses`, `ExceptionHandling` | ApiResponse, ErrorDetails, GlobalExceptionHandler |
| mappers.dfy | `Mappers` | UserMapper, OrganizationMapper |

How the model is built:

- **Store.** A `Store` object owns the two tables (`map<Id, User>`,
  `map<Id, Organization>`) and the identity counters. Its `Valid()`
  predicate holds the schema's guarantees: keys match ids, usernames, emails
  and organization names are unique, and every user's organization exists.
  Every service method preserves it.
- **Services.** Each service is a class over the shared store. A method
  first runs the decision the source makes, as a pure function
  (`CreateUserRejection`, ...). That function gives the exception thrown,
  or `None` when the method goes on to write. Lemmas prove each check
  exact: it rejects precisely the writes that would break a unique column
  or the foreign key. A failed call leaves the store `unchanged`. A
  successful one states the whole new table.
- **Tokens.** The cryptography stays uninterpreted. Signing and parsing
  are function values in the configuration, and BCrypt is an `encode`
  function. The only assumption, the ghost predicate `JwtUtil.Sound`, is
  that a token signed with a secret parses back to its claims under the same
  secret while it is unexpired. The clock readings are parameters.
- **Filter.** The security context and the rest of the filter chain are
  objects the filter modifies. The filter's decision is the function
  `AuthenticationAfter`, and the method is proved to produce it.

Three points where the code does something other than what its own
comments say. The model follows the code:

- BaseEntity.java:60 says queries filter on `deletedAt IS NULL`. No
  repository query does so. A soft-deleted user is still found by id and
  username, can still sign in, and keeps its username and email taken
  (`Repository.SoftDeleteInvisibleToUserQueries`,
  `UserServices.DeletedUsernameStillTaken`,
  `UserServices.UserService.DeleteUser`).
- User.java:83 says an inactive user cannot log in. Login does reach
  `isEnabled`, but only through the authentication provider, which is
  left opaque here. The JWT filter never consults the flag, so a
  deactivated user holding an unexpired token is still authenticated
  (`JwtAuthentication.DeactivatedUserStillAuthenticated`).
- Organization.java:46 says that when an organization is inactive, its
  users cannot log in. Nothing in the core reads that flag.

## Model

| member | source | states |
|---|---|---|
| Entities.Authorities | src/main/java/com/ahmet/order_management/user/entity/User.java:61-64 | exactly one authority, ROLE_ADMIN or ROLE_USER, and it names the user's role |
| Entities.AccountFlags | src/main/java/com/ahmet/order_management/user/entity/User.java:66-84 | isEnabled is exactly the active flag; the three account-status flags are always true |
| Entities.BuildUser | src/main/java/com/ahmet/order_management/user/entity/User.java:29-52 | the built user carries exactly the given fields, no key or stamps yet, and active is the given flag or true when unset |
| Entities.BuildOrganization | src/main/java/com/ahmet/order_management/organization/entity/Organization.java:26-50 | the built organization carries the given name and description, no key or stamps yet, and active is the given flag or true when unset |
| Entities.BuildersDefaultActive | src/main/java/com/ahmet/order_management/user/entity/User.java:50-52 | a user or organization built without an active flag is active |
| Repository.FindById | src/main/java/com/ahmet/order_management/user/service/impl/UserServiceImpl.java:38-39 | a row is found exactly when its key is present, and it is the row under that key |
| Repository.FindByUsername | src/main/java/com/ahmet/order_management/user/repository/UserRepository.java:40-43 | non-empty exactly when some row has the username, and then it is that row (unique column) |
| Repository.FindByEmail | src/main/java/com/ahmet/order_management/user/repository/UserRepository.java:51-54 | non-empty exactly when some row has the email, and then it is that row |
| Repository.FindByName | src/main/java/com/ahmet/order_management/organization/repository/OrganizationRepository.java:32-35 | non-empty exactly when some organization has the name, and then it is that row |
| Repository.ExistsByUsername | src/main/java/com/ahmet/order_management/user/repository/UserRepository.java:64-67 | true exactly when the username is in the table's username column, deleted rows included |
| Repository.ExistsByEmail | src/main/java/com/ahmet/order_management/user/repository/UserRepository.java:77-80 | true exactly when the email is in the table's email column, deleted rows included |
| Repository.ExistsByName | src/main/java/com/ahmet/order_management/organization/repository/OrganizationRepository.java:43-46 | true exactly when the name is in the organization table's name column, deleted rows included |
| Repository.ExistsByNameIffFound | src/main/java/com/ahmet/order_management/organization/repository/OrganizationRepository.java:32-46 | existsByName(n) holds iff findByName(n) is non-empty; soft-deleted rows are found |
| Repository.SoftDeleteInvisibleToUserQueries | src/main/java/com/ahmet/order_management/user/repository/UserRepository.java:40-80 | setting deletedAt on a row changes the answer of none of the four user queries: findByUsername, existsByUsername, existsByEmail and, while emails are unique, findByEmail |
| Repository.DeletedUserStillFound | src/main/java/com/ahmet/order_management/user/repository/UserRepository.java:40-43 | a soft-deleted user is still found by its username |
| Repository.InsertKeepsUsersUnique | src/main/java/com/ahmet/order_management/user/entity/User.java:34-38 | inserting a row with an unused username and an unused email keeps both columns unique |
| Repository.ReplaceKeepsUsersUnique | src/main/java/com/ahmet/order_management/user/entity/User.java:34-38 | replacing a row keeps both columns unique when each value is kept or unused |
| Repository.InsertKeepsNamesUnique | src/main/java/com/ahmet/order_management/organization/entity/Organization.java:35-36 | inserting an organization with an unused name keeps names unique |
| Repository.ReplaceKeepsNamesUnique | src/main/java/com/ahmet/order_management/organization/entity/Organization.java:35-36 | replacing an organization keeps names unique when its name is kept or unused |
| Persistence.FlushedUser | src/main/java/com/ahmet/order_management/common/entity/BaseEntity.java:40-50 | the row a flush writes for a loaded user: the stored row itself when nothing changed; otherwise the written fields with the stored createdAt and updatedAt = now |
| Persistence.FlushedOrganization | src/main/java/com/ahmet/order_management/common/entity/BaseEntity.java:40-50 | the same for a loaded organization |
| Persistence.Store.InsertUser | src/main/java/com/ahmet/order_management/common/entity/BaseEntity.java:32-50 | a new user gets the next identity value as key and now as both audit stamps; nothing else changes |
| Persistence.Store.SaveUser | src/main/java/com/ahmet/order_management/common/entity/BaseEntity.java:40-50 | saving an unchanged user leaves its row as stored; a changed one (dirty at flush) keeps its creation stamp and gets updatedAt = now; only that row is replaced |
| Persistence.Store.InsertOrganization | src/main/java/com/ahmet/order_management/common/entity/BaseEntity.java:32-50 | as for users, for a new organization |
| Persistence.Store.SaveOrganization | src/main/java/com/ahmet/order_management/common/entity/BaseEntity.java:40-50 | as for users: an unchanged organization is left as stored; a changed one keeps createdAt and gets updatedAt = now |
| UserServices.CreateUserRejection | src/main/java/com/ahmet/order_management/user/service/impl/UserServiceImpl.java:55-64 | a taken username is reported first, then a taken email, then a missing organization; no exception exactly when all three checks pass |
| UserServices.CreateUserCheckExact | src/main/java/com/ahmet/order_management/user/service/impl/UserServiceImpl.java:55-64 | the checks pass exactly when the new row keeps usernames and emails unique and its organization exists |
| UserServices.DeletedUsernameStillTaken | src/main/java/com/ahmet/order_management/user/service/impl/UserServiceImpl.java:55-57 | the username of a soft-deleted user still makes createUser fail |
| UserServices.UpdateUserRejection | src/main/java/com/ahmet/order_management/user/service/impl/UserServiceImpl.java:89-93 | a missing user is NotFound; a changed email must be unused; re-submitting one's own email always passes |
| UserServices.UpdateUserCheckExact | src/main/java/com/ahmet/order_management/user/service/impl/UserServiceImpl.java:91-93 | the email check passes exactly when the updated row keeps emails unique |
| UserServices.UserService.GetUserById | src/main/java/com/ahmet/order_management/user/service/impl/UserServiceImpl.java:36-40 | the row under the id, deleted or not; NotFound with the id in its message exactly when there is none |
| UserServices.UserService.GetUserByUsername | src/main/java/com/ahmet/order_management/user/service/impl/UserServiceImpl.java:43-47 | the row with that username; NotFound exactly when there is none |
| UserServices.UserService.CreateUser | src/main/java/com/ahmet/order_management/user/service/impl/UserServiceImpl.java:51-82 | fails exactly as CreateUserRejection says, leaving the store unchanged; otherwise adds exactly one row under a fresh key: the given fields, the encoded password, active, both stamps now |
| UserServices.UserService.UpdateUser | src/main/java/com/ahmet/order_management/user/service/impl/UserServiceImpl.java:86-102 | fails exactly as UpdateUserRejection says, leaving the store unchanged; otherwise changes only email, fullName and updatedAt of that row; re-submitting the stored values changes nothing, not even updatedAt |
| UserServices.UserService.ChangePassword | src/main/java/com/ahmet/order_management/user/service/impl/UserServiceImpl.java:106-116 | NotFound exactly for an unknown id; otherwise changes only the password, to encode(newPassword), and updatedAt |
| UserServices.UserService.DeleteUser | src/main/java/com/ahmet/order_management/user/service/impl/UserServiceImpl.java:120-129 | NotFound exactly for an unknown id; otherwise sets deletedAt to now, and the row is still found by id and by username |
| OrganizationServices.CreateOrganizationRejection | src/main/java/com/ahmet/order_management/organization/service/impl/OrganizationServiceImpl.java:41-43 | BusinessException exactly when the name exists |
| OrganizationServices.CreateOrganizationCheckExact | src/main/java/com/ahmet/order_management/organization/service/impl/OrganizationServiceImpl.java:41-43 | the check passes exactly when the new row keeps names unique |
| OrganizationServices.UpdateOrganizationRejection | src/main/java/com/ahmet/order_management/organization/service/impl/OrganizationServiceImpl.java:62-66 | a missing organization is NotFound; a changed name must be unused; keeping the name always passes |
| OrganizationServices.UpdateOrganizationCheckExact | src/main/java/com/ahmet/order_management/organization/service/impl/OrganizationServiceImpl.java:64-66 | the name check passes exactly when the updated row keeps names unique |
| OrganizationServices.OrganizationService.GetOrganizationById | src/main/java/com/ahmet/order_management/organization/service/impl/OrganizationServiceImpl.java:30-34 | NotFound exactly when no row has the id, the row otherwise |
| OrganizationServices.OrganizationService.CreateOrganization | src/main/java/com/ahmet/order_management/organization/service/impl/OrganizationServiceImpl.java:38-55 | fails exactly when the name exists, store unchanged; otherwise adds one active row with the given name and description; users untouched |
| OrganizationServices.OrganizationService.UpdateOrganization | src/main/java/com/ahmet/order_management/organization/service/impl/OrganizationServiceImpl.java:59-75 | fails exactly as UpdateOrganizationRejection says; otherwise changes only name, description and updatedAt; re-submitting the stored values changes nothing, not even updatedAt |
| OrganizationServices.OrganizationService.DeleteOrganization | src/main/java/com/ahmet/order_management/organization/service/impl/OrganizationServiceImpl.java:79-88 | only sets deletedAt (and updatedAt) of that row; the users referencing it are unchanged |
| JwtUtil.ExtractUsername | src/main/java/com/ahmet/order_management/common/util/JwtUtil.java:45-47 | the subject claim of the parsed token; fails exactly when parsing fails, with the parser's JwtException |
| JwtUtil.ExtractExpiration | src/main/java/com/ahmet/order_management/common/util/JwtUtil.java:52-54 | the expiration claim of the parsed token; fails exactly when parsing fails, with the parser's JwtException |
| JwtUtil.GenerateToken | src/main/java/com/ahmet/order_management/common/util/JwtUtil.java:92-98 | the token signed with the configured secret over subject = username, issuedAt = the first clock reading, expiration = the second reading + jwtExpiration, no extra claims |
| JwtUtil.GenerateTokenWithClaims | src/main/java/com/ahmet/order_management/common/util/JwtUtil.java:104-111 | the token signed over the extra claims minus the registered ones, with subject = the user's username and the same issuedAt and expiration |
| JwtUtil.ExtractAllClaims | src/main/java/com/ahmet/order_management/common/util/JwtUtil.java:67-73 | the parsed claims, or a JwtException (the only error kind it can return) exactly when parsing or signature verification fails |
| JwtUtil.IsTokenExpired | src/main/java/com/ahmet/order_management/common/util/JwtUtil.java:78-80 | true iff the expiration is strictly before now; a missing expiration throws |
| JwtUtil.GenerateTokenFor | src/main/java/com/ahmet/order_management/common/util/JwtUtil.java:85-87 | the token for a UserDetails is the token for its username |
| JwtUtil.GeneratedTokenClaims | src/main/java/com/ahmet/order_management/common/util/JwtUtil.java:92-98 | round trip: until expiry the token parses back to subject = username, issuedAt, expiration = clock + lifetime, no extra claims |
| JwtUtil.ExpirationIsIssuedAtPlusLifetime | src/main/java/com/ahmet/order_management/common/util/JwtUtil.java:95-96 | with one clock reading, expiration = issuedAt + jwtExpiration |
| JwtUtil.TokenWithClaimsCarriesUsername | src/main/java/com/ahmet/order_management/common/util/JwtUtil.java:104-111 | the subject is the user's username, and no extra claim can replace it |
| JwtUtil.ValidateToken | src/main/java/com/ahmet/order_management/common/util/JwtUtil.java:119-122 | true iff the subject is the user's username and the token is not expired; false iff the subject differs, or it matches and the token is expired; a parse failure throws |
| JwtUtil.FreshTokenValidates | src/main/java/com/ahmet/order_management/common/util/JwtUtil.java:119-122 | an issued token validates for its user up to and including its expiration instant |
| JwtUtil.TokenRejectsOtherUser | src/main/java/com/ahmet/order_management/common/util/JwtUtil.java:119-121 | an issued token is false for a user with another username |
| JwtUtil.ExpiredTokenNeverValidates | src/main/java/com/ahmet/order_management/common/util/JwtUtil.java:78-80 | a token whose expiration has passed never validates, whatever the library |
| UserDetailsServices.LoadUserByUsername | src/main/java/com/ahmet/order_management/auth/service/CustomUserDetailsService.java:23-28 | the stored user with exactly that username; UsernameNotFoundException exactly when none; a function of the table, so the store is not changed |
| UserDetailsServices.LoadsEveryStoredUser | src/main/java/com/ahmet/order_management/auth/service/CustomUserDetailsService.java:26 | every stored user, deleted or deactivated, is loaded by its username |
| AuthServices.Authenticate | src/main/java/com/ahmet/order_management/auth/service/AuthService.java:31-36 | succeeds iff the user exists and the provider accepts the password; the principal is that stored user |
| AuthServices.FirstAuthorityOr | src/main/java/com/ahmet/order_management/auth/service/AuthService.java:41-44 | the first authority, or the fallback when there is none |
| AuthServices.Login | src/main/java/com/ahmet/order_management/auth/service/AuthService.java:26-58 | every failure is the one BusinessException with the fixed message; success iff authentication succeeds, with the request's username, type Bearer and a token for that username |
| AuthServices.LoginFailuresIndistinguishable | src/main/java/com/ahmet/order_management/auth/service/AuthService.java:54-57 | an unknown user and a wrong password give identical results |
| AuthServices.LoginRoleIsStoredRole | src/main/java/com/ahmet/order_management/auth/service/AuthService.java:41-44 | the reported role is "ROLE_" + the stored role; the fallback is never reached |
| AuthServices.LoginTokenNamesUser | src/main/java/com/ahmet/order_management/auth/service/AuthService.java:36-37 | until it expires, the login token's subject is the user who logged in |
| AuthServices.RegistrationOrganization | src/main/java/com/ahmet/order_management/auth/service/AuthService.java:65 | the requested organization, or 1 when none is given |
| AuthServices.AuthService.Register | src/main/java/com/ahmet/order_management/auth/service/AuthService.java:60-79 | fails exactly as createUser would, with its exception and the store unchanged; otherwise adds one USER row in the chosen organization and returns the fixed confirmation text |
| JwtAuthentication.Attempt | src/main/java/com/ahmet/order_management/config/JwtAuthenticationFilter.java:56-82 | the try block: a null subject or an existing authentication leaves the context as it is; a new authentication is only ever the stored user's whose token validates; an exception comes from extractUsername, from the missing user, or from validateToken, and no other way |
| JwtAuthentication.AuthenticationAfter | src/main/java/com/ahmet/order_management/config/JwtAuthenticationFilter.java:48-86 | no bearer header leaves the context as it was; an existing authentication is never replaced; a new one is set only for a stored user whose token validates, and carries that user's authorities and no credentials |
| JwtAuthentication.BearerTokenAuthenticatesIff | src/main/java/com/ahmet/order_management/config/JwtAuthenticationFilter.java:54-79 | from an empty context, the request is authenticated iff the token (header minus "Bearer ") names a stored user and validates for that user |
| JwtAuthentication.IssuedTokenAuthenticates | src/main/java/com/ahmet/order_management/config/JwtAuthenticationFilter.java:58-79 | a token issued for a stored user authenticates that user until expiry |
| JwtAuthentication.DeactivatedUserStillAuthenticated | src/main/java/com/ahmet/order_management/config/JwtAuthenticationFilter.java:64-67 | the enabled flag is not consulted: a deactivated user with a live token is authenticated |
| JwtAuthentication.ExpiredTokenNeverAuthenticates | src/main/java/com/ahmet/order_management/config/JwtAuthenticationFilter.java:67 | an expired token never establishes an authentication |
| JwtAuthentication.JwtAuthenticationFilter.DoFilterInternal | src/main/java/com/ahmet/order_management/config/JwtAuthenticationFilter.java:43-90 | the context ends as AuthenticationAfter says, every exception swallowed, and the chain runs exactly once on every path |
| SecurityConfiguration.AccessFor | src/main/java/com/ahmet/order_management/config/SecurityConfig.java:43-48 | the first matching rule's access decides; with no matching rule, authentication is required |
| SecurityConfiguration.RulesPermitExactlyPublicPaths | src/main/java/com/ahmet/order_management/config/SecurityConfig.java:43-48 | the rule list permits without authentication exactly the paths under /auth, /v3/api-docs, /swagger-ui or /actuator, and /swagger-ui.html |
| SecurityConfiguration.Permits | src/main/java/com/ahmet/order_management/config/SecurityConfig.java:43-48 | a request passes iff its path is public (as above) or the context is authenticated |
| SecurityConfiguration.AuthPathsArePublic | src/main/java/com/ahmet/order_management/config/SecurityConfig.java:44 | /auth and everything below it pass unauthenticated |
| SecurityConfiguration.AdmissionFollowsFilter | src/main/java/com/ahmet/order_management/config/SecurityConfig.java:40-50 | the filter runs before authorization: public paths pass whatever the token; others pass iff the filter authenticated the request, so never without a bearer header |
| Responses.Success | src/main/java/com/ahmet/order_management/common/dto/ApiResponse.java:75-82 | success, the message, the data, no error |
| Responses.SuccessData | src/main/java/com/ahmet/order_management/common/dto/ApiResponse.java:90-92 | success(data) is success(data, "İşlem başarılı") |
| Responses.SuccessMessage | src/main/java/com/ahmet/order_management/common/dto/ApiResponse.java:101-107 | success with the message and no data |
| Responses.Error | src/main/java/com/ahmet/order_management/common/dto/ApiResponse.java:115-122 | not success, the message, the error, no data |
| Responses.ErrorMessage | src/main/java/com/ahmet/order_management/common/dto/ApiResponse.java:130-132 | error(msg) is error(msg, null) |
| Responses.SuccessAndErrorDiffer | src/main/java/com/ahmet/order_management/common/dto/ApiResponse.java:28-33 | no success envelope equals an error envelope, and the data-carrying success differs from the message-only one in its data |
| ExceptionHandling.HandleNotFoundException | src/main/java/com/ahmet/order_management/common/exception/GlobalExceptionHandler.java:37-49 | 404, NOT_FOUND, message and details both the exception message, success false |
| ExceptionHandling.HandleBusinessException | src/main/java/com/ahmet/order_management/common/exception/GlobalExceptionHandler.java:55-67 | 400, BUSINESS_ERROR, message and details the exception message |
| ExceptionHandling.HandleUnauthorizedException | src/main/java/com/ahmet/order_management/common/exception/GlobalExceptionHandler.java:73-85 | 403, UNAUTHORIZED, message and details the exception message |
| ExceptionHandling.HandleValidationException | src/main/java/com/ahmet/order_management/common/exception/GlobalExceptionHandler.java:96-123 | 400, VALIDATION_ERROR, the fixed message and details, and the field errors grouped by field |
| ExceptionHandling.GroupFieldErrors | src/main/java/com/ahmet/order_management/common/exception/GlobalExceptionHandler.java:101-110 | the map the computeIfAbsent loop builds is the grouping of all errors |
| ExceptionHandling.GroupedStep | src/main/java/com/ahmet/order_management/common/exception/GlobalExceptionHandler.java:108-109 | adding one error appends its message to its field's list, creating the list when absent |
| ExceptionHandling.GroupedCharacterized | src/main/java/com/ahmet/order_management/common/exception/GlobalExceptionHandler.java:101-110 | the keys are exactly the fields that have errors, each with a non-empty list |
| ExceptionHandling.MessagesForAppend | src/main/java/com/ahmet/order_management/common/exception/GlobalExceptionHandler.java:103-110 | a field's list for a concatenation is the concatenation of its lists; one error contributes only to its own field; together: encounter order |
| ExceptionHandling.HandleGeneralException | src/main/java/com/ahmet/order_management/common/exception/GlobalExceptionHandler.java:130-142 | 500, INTERNAL_SERVER_ERROR, the fixed message, and the exception's own message as details |
| ExceptionHandling.Handle | src/main/java/com/ahmet/order_management/common/exception/GlobalExceptionHandler.java:37-142 | Spring's handler choice: NotFound gives 404 NOT_FOUND, Business 400 BUSINESS_ERROR, Unauthorized 403 UNAUTHORIZED, a validation failure 400 VALIDATION_ERROR with the grouped field errors, and every other exception 500 INTERNAL_SERVER_ERROR with the fixed message; never success, never data |
| ExceptionHandling.EveryHandlerFails | src/main/java/com/ahmet/order_management/common/exception/GlobalExceptionHandler.java:37-142 | every handler gives success false, no data and an error code; the status is below 500 exactly for the four dedicated exception types |
| Mappers.UserToResponse | src/main/java/com/ahmet/order_management/user/mapper/UserMapper.java:32-49 | null to null; otherwise the user's id, username, email, fullName, role, active and stamps, with its organization's id and name |
| Mappers.ResponseHidesPassword | src/main/java/com/ahmet/order_management/user/mapper/UserMapper.java:37-48 | the password does not influence the response |
| Mappers.UsersToResponses | src/main/java/com/ahmet/order_management/user/mapper/UserMapper.java:59-61 | same length, and each element mapped by toResponse in order |
| Mappers.UsersToResponsesAppend | src/main/java/com/ahmet/order_management/user/mapper/UserMapper.java:59-61 | mapping a concatenation concatenates the mapped parts |
| Mappers.UserToResponseList | src/main/java/com/ahmet/order_management/user/mapper/UserMapper.java:54-62 | null to the empty list; otherwise length and order kept, element-wise toResponse |
| Mappers.OrganizationToResponse | src/main/java/com/ahmet/order_management/organization/mapper/OrganizationMapper.java:23-36 | null to null; otherwise id, name, description, active and stamps copied unchanged |
| Mappers.OrganizationsToResponses | src/main/java/com/ahmet/order_management/organization/mapper/OrganizationMapper.java:46-48 | same length, and each element mapped by toResponse in order |
| Mappers.OrganizationToResponseList | src/main/java/com/ahmet/order_management/organization/mapper/OrganizationMapper.java:41-49 | null to the empty list; otherwise length and order kept |

## Left out

- Controllers, `getAllUsers` and `getAllOrganizations`: HTTP routing and a plain `findAll`, with no decision logic.
- Signing, parsing and HMAC key derivation (JwtUtil.java:38-40, 67-73) are uninterpreted. `JwtUtil.Sound` assumes only the round trip under one secret. Weak-key exceptions, the truncation of iat and exp to whole seconds, and `Long` overflow of `currentTimeMillis() + jwtExpiration` are not modelled.
- JwtUtil.ExtractAllClaims: jjwt rejects expired tokens inside `parseSignedClaims`. Here that rejection is part of the opaque `parse`, so the model allows a parser that does or does not reject them. Every token property is proved for both kinds of parser.
- BCrypt is a deterministic `encode` function. Salting is not modelled, so "the stored hash differs from the plaintext" is not stated.
- `authenticationManager.authenticate` and DaoAuthenticationProvider are the uninterpreted `accepts` predicate over the loaded user and the raw password. That covers its password and account-status checks, including the enabled flag.
- The thread-local SecurityContextHolder is an explicit `SecurityContext` object. The request details the filter attaches (`setDetails`) and exceptions thrown by the rest of the chain are not modelled.
- Path matching is "exact" or "base followed by `/**`". Spring's path normalisation (trailing slashes, encoded characters, servlet paths) is not modelled. CSRF and the stateless session policy appear only as an empty context per request.
- Transactions and JPA auditing are explicit. Writes happen at the end of the service method. Spring Data's AuditingEntityListener (BaseEntity.java:26, 40-50) is a parameter `now` on insert and, on update, `FlushedUser`/`FlushedOrganization`: a managed entity that is not dirty at commit is not written and keeps its stamps, and a dirty one gets updatedAt = now. There is no rollback to model, because nothing is written before a check fails.
- Persistence.Store.InsertUser: the unique columns and the foreign key are preconditions. DataIntegrityViolationException is not modelled. The services always check before they write.
- Concurrency: the check-then-insert race of two simultaneous registrations is out of scope.
- UserServices.UserService.CreateUser: a null `organizationId` is not modelled (`findById(null)` throws IllegalArgumentException). Nor are null strings anywhere.
- Repository.FindByUsername: requires the unique column. A table with duplicate usernames, where JPA would throw IncorrectResultSizeDataAccessException, is not modelled.
- Jakarta bean validation of the request DTOs is enforced by the framework and is not modelled.
- ExceptionHandling.HandleValidationException: a global (non-field) binding error would make the `(FieldError)` cast throw. The model's validation exception carries only field errors, which is all the DTO constraints produce.
- Responses.Success: a null `data` argument is not modelled. The data-less form is `SuccessMessage`.
- ErrorDetails.stackTrace is never set by the core. It is always `None`.
- Mappers.UserToResponse: requires the user's organization to be present. A lazy-loading failure of `getOrganization()` is not modelled.
- Logging and Swagger annotations.
