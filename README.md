# Items Management Backend: the security and service core in Dafny

This project models the core of a Spring Boot back end for managing items
and categories. Its users have one of three roles, with ROOT above ADMIN
above USER. The model covers:

- **The user service** (`UserServiceImplementation`). It resolves the
  requester from the security context, runs each operation's chain of
  validation and permission checks, and writes the user table. These are
  the modules `Users` (with the class `UserDirectory`), `Roles` and
  `EmailFormat`.
- **The request filter** (`JwtRequestFilter`). It reads a JWT from the
  `token` cookie or the `Authorization: Bearer` header. It puts an
  authentication into the security context only when the context is empty
  and the token checks out. This is the module `RequestFilter`, over
  `Security`, `Http` and `Jwt`.
- **The security configuration** (`SecurityConfig.filterChain`). The
  authorization rules are consulted in order, and the first match wins.
  The logout success handler clears the cookie. This is the module
  `SecurityRules`.
- **The authentication controller** (`AuthController`): `check-login`,
  `login` and `verify-credentials`, together with the global handler that
  turns a failed login into a 401. This is the module `Auth`.
- **The category and item services.** They work over two shared tables,
  in which each item points at its category by the category's identity
  key. These are the modules `Catalog` (with the class `Store`),
  `CategoryService` and `ItemService`.
- **End-to-end properties** that span several components, in the module
  `Scenarios`.

Some things the source gets from collaborators become parameters of the
model:

- **Token signing and parsing** (the JJWT library): a `sign` function and
  a `TokenParser`.
- **The password encoder**: a `PasswordEncoder` pair with one assumed law,
  `SoundEncoder`.
- **The clock**: `nowMillis`.
- **Random UUIDs**: `newUserId`, `newItemId` and `newCategoryId`.
- **The authentication manager's verdict on a login**: `AuthOutcome`.

The repositories are sequences held in a class field. A lookup returns the
first matching row.

Pure check chains are functions. An operation that writes a table is a
method. Its `ensures` gives the new table in terms of the old one and of
those functions. Failures are `Result` values that carry the status and
reason the source throws (`StatusError`, `CatalogError`). A failing call
leaves the tables as they were, which is what the `@Transactional`
rollback guarantees in the source.

Where the code and its design disagree, the model follows the code:

- E-mail addresses are compared exactly. Nothing lower-cases them.
- A token is valid up to the whole second below its ten-hour mark, because
  JJWT stores its instants in whole seconds (`Jwt.SignedClaimsValidity`).
- A token lives ten hours, but the cookie that carries it lives one day,
  or seven days with `rememberMe` (`Scenarios.TokenDiesBeforeCookie`).
- The filter skips `/public/`, `/assets/`, `/health` and `/auth/refresh`.
  The authorization table does not permit those paths, so they always fall
  to the "authenticated" catch-all. An anonymous request to them is refused
  even when it carries a valid token (`Scenarios.BypassedPathsRefused`).
- The filter recognizes a pre-flight with `equalsIgnoreCase("OPTIONS")`.
  The authorization table matches the method exactly.
- `updateUser` checks a new e-mail address for neither format nor
  uniqueness (`Users.UpdateCanDuplicateEmail`). Only the database's unique
  column would stop a duplicate, and that column is not modelled.
- A role literal is accepted only as the full constant name, in any case:
  `"role_admin"` is accepted and `"ADMIN"` is rejected
  (`Roles.ShortNamesRejected`).

## Model

Source paths are relative to the repository root.

| member | source | states |
|---|---|---|
| Roles.ParseRole | src/main/java/com/xw/api/service/implementation/UserServiceImplementation.java:33-41 | a literal parses to a role exactly when its upper-cased form is that role's constant name; otherwise no constant name matches |
| Roles.IsValidRole | src/main/java/com/xw/api/service/implementation/UserServiceImplementation.java:33-41 | a literal is valid if and only if it is non-null and its upper-cased form is some role's constant name |
| Roles.ParseRoleIff | src/main/java/com/xw/api/service/implementation/UserServiceImplementation.java:33-41 | both directions: `ParseRole(s) == Some(r)` if and only if `Upper(s)` is the name of `r` |
| Roles.NameParses | src/main/java/com/xw/api/service/implementation/UserServiceImplementation.java:73-81 | every role's stored name parses back to that role (round trip of `name()` and `valueOf(toUpperCase())`) |
| Roles.NameInjective | src/main/java/com/xw/api/service/implementation/UserDetailsServiceImplementation.java:28 | the authority string determines the role: distinct roles have distinct names |
| Roles.OutranksTable | src/main/java/com/xw/api/service/implementation/UserServiceImplementation.java:112-120 | in the reference order a USER manages nobody, nobody manages ROOT or a peer, and only ROOT manages ADMIN |
| Roles.ShortNamesRejected | src/main/java/com/xw/api/service/implementation/UserServiceImplementation.java:33-41 | the short literals ROOT, ADMIN and USER are not valid roles |
| EmailFormat.IsEmailFormat | src/main/java/com/xw/api/service/implementation/UserServiceImplementation.java:92-94 | the scanning test agrees, in both directions, with the language of the regular expression, stated as a split at an `@` with both sides drawn from their character classes |
| EmailFormat.EmailHasOneAt | src/main/java/com/xw/api/service/implementation/UserServiceImplementation.java:92 | an accepted address has exactly one `@`, neither first nor last |
| EmailFormat.EmailExamples | src/main/java/com/xw/api/service/implementation/UserServiceImplementation.java:92-94 | `a@b` is accepted; an empty local part or domain, a second `@` and a space are rejected |
| Jwt.IssueClaims | src/main/java/com/xw/api/utils/JwtUtils.java:26-34 | a token names the user as subject and expires 36,000,000 ms (ten hours) after it is issued |
| Jwt.IsExpired | src/main/java/com/xw/api/utils/JwtUtils.java:50-58 | claims are expired exactly when the clock is past their expiration instant |
| Jwt.ValidateToken | src/main/java/com/xw/api/utils/JwtUtils.java:36-39 | claims validate for a user exactly when their subject is that user's name and the clock has not passed their expiration |
| Jwt.IssuedClaimsValidity | src/main/java/com/xw/api/utils/JwtUtils.java:36-58 | freshly issued claims validate for their own user exactly until their expiration instant, inclusive |
| Jwt.WireInstant | src/main/java/com/xw/api/utils/JwtUtils.java:30-31 | an instant as a token carries it is a whole number of seconds, and for a clock after the epoch it lies less than one second at or below the instant given |
| Jwt.SignedClaimsValidity | src/main/java/com/xw/api/utils/JwtUtils.java:36-58 | claims read back from a fresh token validate for their own user exactly up to the whole second below the ten-hour mark, which is less than a second before it |
| Users.FindByEmail | src/main/java/com/xw/api/repository/UserRepository.java:12-13 | the index of the first row with exactly that e-mail, or none when no row has it |
| Users.FindByUserId | src/main/java/com/xw/api/repository/UserRepository.java:15-16 | the index of the first row with that user id, or none when no row has it |
| Users.LoadUserByUsername | src/main/java/com/xw/api/service/implementation/UserDetailsServiceImplementation.java:24-29 | not found if and only if no row has the e-mail; otherwise the stored e-mail and hash, with the stored role's name as the single authority |
| Users.GetUserRole | src/main/java/com/xw/api/service/implementation/UserServiceImplementation.java:128-131 | null if and only if no row has the e-mail; otherwise the name of a matching row's role |
| Users.ToResponse | src/main/java/com/xw/api/service/implementation/UserServiceImplementation.java:62-71 | the response carries the row's id, user name and e-mail, and a role name that parses back to the row's role |
| Users.NewUser | src/main/java/com/xw/api/service/implementation/UserServiceImplementation.java:73-81 | the new row has the given UUID, the request's user name and e-mail, the given role and the encoding of the request's password, which under a sound encoder matches it |
| Users.RequesterEmail | src/main/java/com/xw/api/service/implementation/UserServiceImplementation.java:43-54 | UNAUTHORIZED if and only if there is no authentication or it is not authenticated; otherwise the principal's user name |
| Users.Requester | src/main/java/com/xw/api/service/implementation/UserServiceImplementation.java:56-60 | success if and only if an authenticated principal names a stored e-mail; the result is a stored row with that e-mail; every failure is UNAUTHORIZED |
| Users.CreateGuard | src/main/java/com/xw/api/service/implementation/UserServiceImplementation.java:112-120 | creation passes if and only if the requester strictly outranks the target role; a refusal is FORBIDDEN |
| Users.DeleteGuard | src/main/java/com/xw/api/service/implementation/UserServiceImplementation.java:153-169 | deletion passes if and only if the requester strictly outranks the target; a refusal is FORBIDDEN |
| Users.ModifyGuard | src/main/java/com/xw/api/service/implementation/UserServiceImplementation.java:179-189 | modification passes if and only if the requester strictly outranks the target; a refusal is FORBIDDEN |
| Users.RoleChange | src/main/java/com/xw/api/service/implementation/UserServiceImplementation.java:191-205 | no change exactly when the literal is empty or names the current role (ignoring case); otherwise a non-ROOT requester is FORBIDDEN, an invalid literal BAD_REQUEST and a ROOT literal FORBIDDEN, and ROOT changing to any other valid role gets exactly the parsed role |
| Users.ValidateNewUser | src/main/java/com/xw/api/service/implementation/UserServiceImplementation.java:88-106 | success if and only if the e-mail is non-empty, well-formed and unused, the user name and password are non-empty and the role is valid; CONFLICT if and only if a well-formed e-mail is already stored; every other failure is BAD_REQUEST |
| Users.CheckCreate | src/main/java/com/xw/api/service/implementation/UserServiceImplementation.java:83-120 | a requester failure comes first, then any validation failure as it is, and only then the authorization refusal, which is FORBIDDEN; success if and only if validation passes and the requester outranks the requested role |
| Users.CheckDelete | src/main/java/com/xw/api/service/implementation/UserServiceImplementation.java:146-169 | a requester failure comes first, then NOT_FOUND for an unknown id, then FORBIDDEN when the requester does not outrank the target; success if and only if the target exists and is outranked, and the result is its index |
| Users.CheckUpdate | src/main/java/com/xw/api/service/implementation/UserServiceImplementation.java:172-205 | a requester failure comes first, then NOT_FOUND for an unknown e-mail, then FORBIDDEN when the target is not outranked, then the role-change failure as it is; otherwise success with the target found by e-mail and the role change allowed for it |
| Users.UpdatedRecord | src/main/java/com/xw/api/service/implementation/UserServiceImplementation.java:207-219 | the user id never changes; the user name and e-mail change only for a non-empty request value; the hash is kept for an empty password or one that already matches it, and otherwise becomes the encoding of the new password |
| Users.ValidateSuperUser | src/main/java/com/xw/api/service/implementation/UserServiceImplementation.java:238-250 | passes if and only if the e-mail is non-empty and well-formed and the user name and password are non-empty; a failure is BAD_REQUEST |
| Users.GetAllUsers | src/main/java/com/xw/api/service/implementation/UserServiceImplementation.java:133-144 | a requester failure (UNAUTHORIZED) comes first; then a failure happens if and only if the requester is a USER, and it is FORBIDDEN; otherwise one response per row, in table order |
| Users.GetUserByEmail | src/main/java/com/xw/api/service/implementation/UserServiceImplementation.java:225-233 | a requester failure (UNAUTHORIZED) comes first; then a failure happens if and only if the requester is a USER, and it is FORBIDDEN; otherwise empty exactly when no row has the e-mail, else a matching row's response |
| Users.UserDirectory.CreateUser | src/main/java/com/xw/api/service/implementation/UserServiceImplementation.java:83-126 | when the checks pass, exactly one new row with the encoded password and the parsed role is appended; on every failure the table is unchanged and the failure is the check's |
| Users.UserDirectory.DeleteUser | src/main/java/com/xw/api/service/implementation/UserServiceImplementation.java:146-170 | when the checks pass, exactly the target row is removed; on every failure the table is unchanged |
| Users.UserDirectory.UpdateUser | src/main/java/com/xw/api/service/implementation/UserServiceImplementation.java:172-223 | when the checks pass, the target row is replaced in place by its updated record; on every failure the table is unchanged |
| Users.UserDirectory.CreateInitialSuperUser | src/main/java/com/xw/api/service/implementation/UserServiceImplementation.java:235-263 | when validation passes, a ROOT row is appended with no requester and no duplicate check; otherwise nothing changes |
| Users.UserRequesterMutatesNothing | src/main/java/com/xw/api/service/implementation/UserServiceImplementation.java:109-189 | a USER requester fails the checks of every create, delete and update |
| Users.RootUntouchable | src/main/java/com/xw/api/service/implementation/UserServiceImplementation.java:112-203 | no create produces ROOT, no delete or update targets a ROOT row, and no update makes a row ROOT |
| Users.CreateKeepsEmailsUnique | src/main/java/com/xw/api/service/implementation/UserServiceImplementation.java:95-97 | a successful create keeps e-mail addresses unique in the table |
| Users.CreatedPasswordMatches | src/main/java/com/xw/api/service/implementation/UserServiceImplementation.java:73-81 | under a sound encoder, the stored hash of a created user matches the requested password |
| Users.DeleteRemovesOnlyTarget | src/main/java/com/xw/api/service/implementation/UserServiceImplementation.java:146-170 | the removed row has the requested id; the remaining rows plus that row are the original table as a multiset; unique e-mails stay unique |
| Users.UpdateCanDuplicateEmail | src/main/java/com/xw/api/service/implementation/UserServiceImplementation.java:216-219 | a table with unique e-mails and a ROOT requester that renames one USER's address to another's passes every check and leaves a duplicate |
| RequestFilter.FirstCookie | src/main/java/com/xw/api/filter/JwtRequestFilter.java:70-78 | none if and only if no cookie has the name; otherwise the value of the first cookie with the name |
| RequestFilter.ReadCookie | src/main/java/com/xw/api/filter/JwtRequestFilter.java:70-78 | none if and only if the request has no cookies or none with the name; otherwise the value of the first cookie with the name |
| RequestFilter.IsPreflight | src/main/java/com/xw/api/filter/JwtRequestFilter.java:37 | a pre-flight is a method of seven characters that upper-case, letter by letter, to OPTIONS |
| RequestFilter.ShouldNotFilter | src/main/java/com/xw/api/filter/JwtRequestFilter.java:80-91 | a request is skipped if and only if it is a pre-flight or its URI starts with one of `/login`, `/auth/refresh`, `/public/`, `/assets/`, `/health` |
| RequestFilter.BearerToken | src/main/java/com/xw/api/filter/JwtRequestFilter.java:44-47 | a token is extracted if and only if the header starts with `Bearer `, compared case-sensitively, and then the header is `Bearer ` followed by the token |
| RequestFilter.ResolveToken | src/main/java/com/xw/api/filter/JwtRequestFilter.java:42-48 | a `token` cookie, when present, is the token whatever it holds; only without one is the bearer header used |
| RequestFilter.ResolveAuthentication | src/main/java/com/xw/api/filter/JwtRequestFilter.java:37-65 | a pre-flight or an occupied context is left alone; the context changes if and only if a token is present, parses, has a subject that names a stored user and validates against that user; the new authentication is that user's details, authenticated |
| RequestFilter.DoFilterInternal | src/main/java/com/xw/api/filter/JwtRequestFilter.java:31-68 | the rest of the chain runs exactly once, and the context ends as `ResolveAuthentication` of the old context; exceptions leave the context as it was |
| RequestFilter.FilterOutcome | src/main/java/com/xw/api/filter/JwtRequestFilter.java:80-91 | a request that should not be filtered, or one with an occupied context, keeps its context; every other request gets what `doFilterInternal` resolves |
| RequestFilter.DoFilter | src/main/java/com/xw/api/filter/JwtRequestFilter.java:80-91 | the chain runs once, and a skipped request never reaches `doFilterInternal`; the new context is `FilterOutcome` of the old one |
| RequestFilter.BearerRoundTrip | src/main/java/com/xw/api/filter/JwtRequestFilter.java:45-46 | the header `Bearer ` + t yields t, and the lower-case scheme yields nothing |
| RequestFilter.CookieShadowsHeader | src/main/java/com/xw/api/filter/JwtRequestFilter.java:42-48 | with a `token` cookie present, the outcome does not depend on the `Authorization` header |
| RequestFilter.AuthoritiesFromStore | src/main/java/com/xw/api/filter/JwtRequestFilter.java:53-60 | a newly set authentication carries, as its authorities, exactly the stored role of a row with the principal's e-mail |
| RequestFilter.BypassIsRawPrefix | src/main/java/com/xw/api/filter/JwtRequestFilter.java:85-90 | the bypass is a raw prefix test: `/loginx` and `/healthcheck` are skipped, and `/public` without its slash is not |
| SecurityRules.FirstMatch | src/main/java/com/xw/api/config/SecurityConfig.java:46-52 | none if and only if no rule from `from` on matches; otherwise the requirement of the first matching rule |
| SecurityRules.Authorize | src/main/java/com/xw/api/config/SecurityConfig.java:46-52 | a request is granted if and only if the first matching rule's requirement is met; with no matching rule it is denied |
| SecurityRules.LogoutCookie | src/main/java/com/xw/api/config/SecurityConfig.java:57-63 | the logout cookie is an empty `token` with max-age 0 |
| SecurityRules.OnLogoutSuccess | src/main/java/com/xw/api/config/SecurityConfig.java:56-66 | whoever logs out, with or without an authentication, gets status 200 and the clearing cookie |
| SecurityRules.PreflightAlwaysGranted | src/main/java/com/xw/api/config/SecurityConfig.java:47 | every OPTIONS request is granted, anonymous or not |
| SecurityRules.PublicEndpointsGranted | src/main/java/com/xw/api/config/SecurityConfig.java:48 | `/login`, `/logout` and `/check-login` are granted to anyone, with any method |
| SecurityRules.CatalogSubtreeRule | src/main/java/com/xw/api/config/SecurityConfig.java:49 | a non-OPTIONS request under the items or categories subtree is granted if and only if an authenticated user holds ROOT, USER or ADMIN |
| SecurityRules.AdminSubtreeRule | src/main/java/com/xw/api/config/SecurityConfig.java:50 | a non-OPTIONS request under the admin subtree is granted if and only if an authenticated user holds ROOT or ADMIN |
| SecurityRules.UserDeniedAdminSubtree | src/main/java/com/xw/api/config/SecurityConfig.java:50 | a user whose only authority is ROLE_USER is denied the admin subtree |
| SecurityRules.OtherPathsNeedAuthentication | src/main/java/com/xw/api/config/SecurityConfig.java:52 | any other non-OPTIONS path is granted if and only if the request is authenticated |
| SecurityRules.AnonymousOnlyPublic | src/main/java/com/xw/api/config/SecurityConfig.java:46-52 | an anonymous request is granted if and only if it is OPTIONS or targets one of the three public endpoints |
| Auth.HandleAuthenticationException | src/main/java/com/xw/api/exception/handler/GlobalExceptionHandler.java:13-16 | a failed login becomes status 401 with the exception's message as body |
| Auth.FailureMessage | src/main/java/com/xw/api/controller/AuthController.java:86-91 | the message is `USER_DISABLED` if and only if the account is disabled, and `Invalid credentials` if and only if the credentials are bad |
| Auth.CheckLogin | src/main/java/com/xw/api/controller/AuthController.java:43-51 | 401 with no body if and only if there is no principal; otherwise 200 with the principal's e-mail and its stored role |
| Auth.LoginMaxAge | src/main/java/com/xw/api/controller/AuthController.java:73 | seven days if and only if `rememberMe` is true; one day when it is false or null |
| Auth.LoginCookie | src/main/java/com/xw/api/controller/AuthController.java:74-80 | a `token` cookie carrying the token, HTTP-only, secure, SameSite None, path `/`, with the remember-me lifetime |
| Auth.Login | src/main/java/com/xw/api/controller/AuthController.java:54-92 | on success the context holds the authentication, the cookie carries a token for the stored user, and the body is the e-mail as sent with the stored role; on failure the message follows the exception, and neither the context nor the response changes |
| Auth.VerifyCredentials | src/main/java/com/xw/api/controller/AuthController.java:94-109 | always 200, with true if and only if authentication succeeds |
| Auth.LogoutReplacesLoginCookie | src/main/java/com/xw/api/controller/AuthController.java:74-80 | the logout cookie is any login cookie with its value emptied and its max-age set to 0, so the browser replaces it |
| Catalog.FindCategory | src/main/java/com/xw/api/repository/CategoryRepository.java:13-14 | the index of the first category with that public id, or none when no row has it |
| Catalog.CategoryByKey | src/main/java/com/xw/api/service/implementation/ItemServiceImplementation.java:55-56 | the category row an item's key points at, or none when no row has that key |
| Catalog.FindItem | src/main/java/com/xw/api/repository/ItemRepository.java:13-14 | the index of the first item with that public id, or none when no row has it |
| Catalog.ItemsOf | src/main/java/com/xw/api/repository/ItemRepository.java:17-18 | the list holds every stored item of the key, each as many times as it is stored, and nothing else |
| Catalog.CountByCategory | src/main/java/com/xw/api/repository/ItemRepository.java:21-22 | the count never exceeds the number of items; `Catalog.CountIsListLength` and `Catalog.ZeroCountIff` tie it to the list and to emptiness |
| Catalog.ItemsOfAppend | src/main/java/com/xw/api/repository/ItemRepository.java:17-18 | the list keeps table order: the list of two consecutive stretches of the table is the first stretch's list followed by the second's |
| Catalog.CountIsListLength | src/main/java/com/xw/api/repository/ItemRepository.java:17-22 | the count query equals the length of the list query |
| Catalog.ZeroCountIff | src/main/java/com/xw/api/service/implementation/CategoryServiceImplementation.java:71-74 | the count is zero if and only if no item points at the key |
| Catalog.RemoveUnreferencedCategory | src/main/java/com/xw/api/service/implementation/CategoryServiceImplementation.java:65-76 | removing a category that no item points at keeps the tables' integrity |
| Catalog.RemoveItem | src/main/java/com/xw/api/service/implementation/ItemServiceImplementation.java:79-85 | removing any item keeps the tables' integrity |
| Catalog.ReplaceItem | src/main/java/com/xw/api/service/implementation/ItemServiceImplementation.java:87-108 | overwriting an item with one that keeps its key and points at an existing category keeps the tables' integrity |
| CategoryService.ToResponse | src/main/java/com/xw/api/service/implementation/CategoryServiceImplementation.java:36-46 | the response carries the row's public fields, and its item count is the number of items in the category |
| CategoryService.CreateCategory | src/main/java/com/xw/api/service/implementation/CategoryServiceImplementation.java:30-55 | one row with a fresh key, the new UUID and the request's fields is appended; items are untouched; the response counts zero items; integrity is kept |
| CategoryService.GetAllCategories | src/main/java/com/xw/api/service/implementation/CategoryServiceImplementation.java:57-63 | one response per category, in table order |
| CategoryService.GetCategoryById | src/main/java/com/xw/api/service/implementation/CategoryServiceImplementation.java:98-102 | empty if and only if no row has the id; otherwise a matching row's response |
| CategoryService.CheckDeleteCategory | src/main/java/com/xw/api/service/implementation/CategoryServiceImplementation.java:65-74 | success if and only if the category exists and no item points at it, and then it names that category; not found if and only if no row has the id; not empty if and only if the found category has items |
| CategoryService.DeleteCategory | src/main/java/com/xw/api/service/implementation/CategoryServiceImplementation.java:65-76 | exactly the named empty category is removed; otherwise nothing changes and the failure is the check's; integrity is kept |
| CategoryService.PatchCategory | src/main/java/com/xw/api/service/implementation/CategoryServiceImplementation.java:84-92 | each non-null request field overwrites its column, a null one keeps it, and the keys never change |
| CategoryService.UpdateCategory | src/main/java/com/xw/api/service/implementation/CategoryServiceImplementation.java:78-96 | an unknown id fails with nothing changed; otherwise the row is patched in place and the response reflects the patched row |
| CategoryService.PatchIdempotent | src/main/java/com/xw/api/service/implementation/CategoryServiceImplementation.java:84-92 | patching twice with the same request is patching once |
| CategoryService.UpdateIdempotent | src/main/java/com/xw/api/service/implementation/CategoryServiceImplementation.java:78-96 | a second identical update finds the same row and leaves the table as the first one left it |
| CategoryService.CreatedCategoryFound | src/main/java/com/xw/api/service/implementation/CategoryServiceImplementation.java:30-55 | a created category is found by its fresh UUID and reports zero items |
| ItemService.ResolveCategory | src/main/java/com/xw/api/service/implementation/ItemServiceImplementation.java:37-39 | a category is found if and only if the id is non-null and some row has it |
| ItemService.ToResponse | src/main/java/com/xw/api/service/implementation/ItemServiceImplementation.java:49-60 | the item's public fields, with the public id and name of the category its key points at |
| ItemService.CreateItem | src/main/java/com/xw/api/service/implementation/ItemServiceImplementation.java:30-47 | an unresolvable category id fails with nothing changed; otherwise one row with a fresh key, the new UUID, the request's fields and the resolved category is appended; integrity is kept |
| ItemService.GetItemsByCategory | src/main/java/com/xw/api/service/implementation/ItemServiceImplementation.java:62-70 | fails if and only if the category is unknown; otherwise the responses of the category's items, one for each stored copy and in table order (`ItemsOf`, `Catalog.ItemsOfAppend`) |
| ItemService.CountItemsByCategory | src/main/java/com/xw/api/service/implementation/ItemServiceImplementation.java:72-77 | fails with `Invalid category ID` if and only if the category is unknown |
| ItemService.DeleteItem | src/main/java/com/xw/api/service/implementation/ItemServiceImplementation.java:79-85 | exactly the named item is removed; an unknown id fails with nothing changed; integrity is kept |
| ItemService.PlanItemUpdate | src/main/java/com/xw/api/service/implementation/ItemServiceImplementation.java:87-105 | success if and only if the item exists and the category id is null or resolves; not found if and only if no item has the id; invalid category if and only if a non-null category id does not resolve; on success non-null fields overwrite, null ones keep, and the keys stay |
| ItemService.UpdateItem | src/main/java/com/xw/api/service/implementation/ItemServiceImplementation.java:87-108 | the planned row replaces the item in place and is the response; every failure leaves the table unchanged; integrity is kept |
| ItemService.GetItemById | src/main/java/com/xw/api/service/implementation/ItemServiceImplementation.java:110-114 | empty if and only if no item has the id; otherwise a matching item's response |
| ItemService.GetAllItems | src/main/java/com/xw/api/service/implementation/ItemServiceImplementation.java:116-122 | one response per item, in table order |
| ItemService.CountMatchesList | src/main/java/com/xw/api/service/implementation/ItemServiceImplementation.java:62-77 | count and list fail together, and the count is the list's length |
| ItemService.EveryItemHasCategory | src/main/java/com/xw/api/service/implementation/ItemServiceImplementation.java:49-60 | in valid tables every item's category can be read, so the response conversion never fails |
| Scenarios.LoginTokenAuthenticates | src/main/java/com/xw/api/filter/JwtRequestFilter.java:41-63 | a login token, read back in whole seconds and presented on a filtered path before the whole second below its ten-hour mark, authenticates the stored user, whose single authority is the role stored at request time |
| Scenarios.TokenDiesBeforeCookie | src/main/java/com/xw/api/controller/AuthController.java:73 | past the whole second below its ten-hour mark the token authenticates nothing, whether the parser rejects it or returns its claims, although every login cookie lives longer |
| Scenarios.StoredRoleDecidesRoutes | src/main/java/com/xw/api/config/SecurityConfig.java:49-50 | any logged-in user reaches both catalog subtrees, items and categories; the admin subtree is granted if and only if the stored role is not USER |
| Scenarios.BypassedPathsRefused | src/main/java/com/xw/api/filter/JwtRequestFilter.java:80-91 | a `/public/` request skips the filter, keeps an empty context and is denied by the catch-all rule, valid token or not |
| Scenarios.CheckLoginReportsStoredRole | src/main/java/com/xw/api/controller/AuthController.java:43-51 | for a principal the filter resolved, `check-login` reports its e-mail and its stored role, which is never null |

## Left out

- Signing and parsing of tokens are left to the JJWT library and are abstract: `sign` and a `TokenParser`. The scenario lemmas assume that a parser hands back a login token's claims with their instants in whole seconds (`Jwt.OnTheWire`); `Scenarios.TokenDiesBeforeCookie` also lets it reject the token. JJWT's own expiry check rejects exactly the tokens that `isTokenExpired` would reject, with no clock skew allowed, so the outcome is the same either way. A parser that throws (bad signature, malformed token, JJWT's own expiry check) returns `None`, and the filter swallows it.
- BCrypt is an uninterpreted `PasswordEncoder`. The only law assumed of it is that a password matches its own encoding (`SoundEncoder`).
- The `AuthenticationManager` and `DaoAuthenticationProvider` are left out. Their verdict is the `AuthOutcome` parameter of `Auth.Login` and `Auth.VerifyCredentials`, and credential erasure is not modelled.
- Auth.Login: requires that an authenticated login names a stored e-mail, because the manager loads users from the same table. A null e-mail is not modelled.
- A `DisabledException` cannot arise from the source's own `User` objects, which are always enabled. The `Disabled` outcome is kept because the controller handles it.
- `generateToken` reads the clock twice. The model uses one instant for both the issue time and the expiry.
- `validateToken` parses the token twice and reads the clock again inside `isTokenExpired`, after the user lookup. The model parses once and uses one `nowMillis` for the whole request.
- The principal in the security context is always a `UserDetails`. The `authentication.getName()` fallback of `getRequesterEmail` is not reached.
- The `WebAuthenticationDetails` attached to a filter authentication are not modelled.
- CORS, CSRF, the stateless session policy, the password encoder bean and `UsernamePasswordAuthenticationFilter` ordering are configuration only.
- The logout request matcher (the `/logout` URL and its methods) is left out. Only the success handler is modelled.
- The controllers are not modelled, except `AuthController`. Their re-wrapping of service exceptions into HTTP replies is left out too. `DataInitializationService` is left out.
- The model assumes that the filter and the authorization table see the same path string. The deployment's context path decides this.
- Timestamps (`createdAt`, `updatedAt`, `lastLoginAt`) are not modelled, and `BigDecimal` prices are opaque values.
- The database's unique and not-null column constraints are not modelled. Tables are sequences, and lookups return the first match. A write that would break such a constraint succeeds in the model.
- Transactions are modelled only through their effect: a failing call leaves the tables as they were. Concurrency is out of scope.
- `toUpperCase` and `equalsIgnoreCase` are modelled on ASCII letters only. Locale and Unicode special cases are not.
- Random UUIDs are parameters and are not checked for freshness.
- `UserRole.java` is not part of this model. Its three constants are taken from their uses in the source.
- ItemService.CountItemsByCategory: its own contract states only the error case. The value is tied to the item list by `ItemService.CountMatchesList`.
