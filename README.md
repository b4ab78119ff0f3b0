# Authorization core of the RBAC blog platform, in Dafny

This project models the authorization subsystem of a multi-tenant blogging
back end. It proves properties of that model. The model covers these parts:

- **The permission catalogue.** This is the closed list of five roles
  (super_admin, admin, editor, reviewer, user), the scope catalogue
  `<module>:<action>`, and the role → grant table. `RoleService.HasScope` is
  the matcher over it. A scope matches when the role's grants contain the
  exact scope, `<module>:all`, or `*`.
- **The scope gate.** This is the middleware placed in front of scoped
  routes. It skips preflight requests, reads the organisation id, checks that
  the organisation exists, and looks up the caller's staff row. It then
  publishes the organisation and the staff row in the request context and
  checks the scope.
- **The in-memory tables.** `Database.Store` holds the roles, users,
  organisations, staff, blogs, comments and reviews tables. The services
  insert into and patch these tables. The services modelled are staff
  membership with a privilege-escalation guard, and organisation creation
  (organisation → super_admin staff row → active organisation → tokens →
  cookies). They also cover user creation and update with normalised email,
  blog create/update/publish/un-publish/delete, and comments and reviews.
- **The session and token plumbing.** This covers the cookie names, the
  `X-Org` header, the order in which tokens are looked up, the token
  payload, the expiry defaults, the cookie options, and the order of the
  sign-in checks.
- **Small pure helpers.** These are the validator error flattening, the
  update-mode rule stripping, the attribute-name formatter and the
  `complex_password` rule.
- **The route tables.** These record which routes exist, which of them run
  the authentication gate, and which scope each one checks. The tables tie
  each route to the roles that pass it, for example that an editor cannot
  publish.

Modelling choices:

- **Errors.** Every thrown `PlatformError` becomes a `Failure` of the
  `Errors.Result` type.
- **Request context.** The request context is an explicit `Entities.Ctx`
  value. It holds the session, the access token, the organisation id and
  the staff row.
- **Ids.** A fresh id comes from `Ids.Generator`. Its ids are the decimal
  spellings of a counter, which are proved distinct.
- **Tables.** Each table is a `seq` field of the store class, kept in
  insertion order. A first-match query (`findFirst`) returns the first row
  in that order.
- **Role rows.** The role table is seeded from `DefaultRoles` with
  id = name. This is what the services rely on when they look up a role by
  its name.
- **Foreign libraries.** These are email normalisation, password hashing and
  comparison, the schema validator, JWT sign and verify, and the duration
  parser. Each one is an opaque function field of `Foreign.Libraries`,
  passed as a parameter. The environment configuration is a `Config`
  parameter.
- **The authentication middleware.** Its code is not part of this model.
  A route behind it is modelled only as "a session is present", and
  otherwise it fails with `Unauthenticated`.
- **`hasAccess`.** `StaffService.HasAccess` has no scope parameter, because
  the source ignores it.

## Model

| member | source | states |
|---|---|---|
| Roles.AllRolesDistinct | config/constants/roles.ts:13-19 | the role list has exactly five pairwise distinct names |
| Roles.RoleNameFromKeyIsIdentity | config/constants/roles.ts:5-11 | the key map has exactly the five role names as keys, and maps each to itself |
| Roles.DefaultRolesSeedCatalog | config/constants/roles.ts:30-46 | the default roles are one per catalogue role, with pairwise distinct names |
| Roles.RoleNameTargets | config/constants/roles.ts:22-28 | `RoleName` maps Viewer and Guest outside the catalogue, and every other key inside it |
| Scopes.UserModuleSpelled | config/constants/scope.ts:4-11 | every user scope is `user:<action>`, keyed by its action |
| Scopes.OrganizationModuleSpelled | config/constants/scope.ts:12-18 | every organization scope is `organization:<action>` |
| Scopes.StaffModuleSpelled | config/constants/scope.ts:19-26 | every staff scope is `staff:<action>` |
| Scopes.BlogModuleSpelled | config/constants/scope.ts:27-37 | every blog scope is `blog:<action>` |
| Scopes.UserModuleNamed | config/constants/scope.ts:5 | the user group's `all` entry is `user:all` |
| Scopes.OrganizationModuleNamed | config/constants/scope.ts:13 | the organization group's `all` entry is `organization:all` |
| Scopes.StaffModuleNamed | config/constants/scope.ts:20 | the staff group's `all` entry is `staff:all` |
| Scopes.BlogModuleNamed | config/constants/scope.ts:28 | the blog group's `all` entry is `blog:all` |
| Scopes.CatalogEntriesNamed | config/constants/scope.ts:3-38 | the catalogue has exactly four groups, and each group's entries carry its module name |
| Scopes.CatalogScopeHasColon | config/constants/scope.ts:3-38 | every catalogue scope contains a ':' |
| Scopes.PermissionsCoverEveryRole | config/constants/scope.ts:40-69 | the grant table has exactly one entry per catalogue role |
| Scopes.AdminGrantsInCatalog | config/constants/scope.ts:42-49 | every admin grant is a catalogue scope |
| Scopes.EditorGrantsInCatalog | config/constants/scope.ts:50-56 | every editor grant is a catalogue scope |
| Scopes.ReviewerGrantsInCatalog | config/constants/scope.ts:57-63 | every reviewer grant is a catalogue scope |
| Scopes.UserGrantsInCatalog | config/constants/scope.ts:64-68 | every user grant is a catalogue scope |
| Scopes.GrantsAreCatalogScopes | config/constants/scope.ts:40-69 | every grant of every role is `*` or a catalogue scope |
| Scopes.WildcardOnlySuperAdmin | config/constants/scope.ts:41 | a role holds `*` iff it is super_admin |
| Scopes.UserScopeSpelling | config/constants/scope.ts:4-11 | each user scope constant is `user` + ':' + its action |
| Scopes.OrganizationScopeSpelling | config/constants/scope.ts:12-18 | each organization scope constant is `organization` + ':' + its action |
| Scopes.StaffScopeSpelling | config/constants/scope.ts:19-26 | each staff scope constant is `staff` + ':' + its action |
| Scopes.BlogScopeSpelling | config/constants/scope.ts:27-37 | each blog scope constant is `blog` + ':' + its action |
| Scopes.ScopeSpelling | config/constants/scope.ts:3-38 | the scopes the role lemmas use, spelled as module + ':' + action |
| Scopes.UserCommentNeverListed | config/constants/scope.ts:64-68 | no role's grant list contains `user:comment` |
| RoleService.ModuleOf | services/role.ts:22 | the module is the text before the first ':', or the whole scope when there is none |
| RoleService.HasScope | services/role.ts:17-32 | false for every role outside the catalogue; true for a catalogue role holding `*` or the scope itself |
| RoleService.ModuleOfJoin | services/role.ts:22 | the module of `m:a` is `m` when `m` has no ':' |
| RoleService.JoinInjective | services/role.ts:22 | `m:a` determines `m` and `a` when `m` has no ':' |
| RoleService.OutOfCatalogRolesRejected | services/role.ts:18-20 | a role outside the catalogue has no scope |
| RoleService.RoleNameOutsiders | services/role.ts:18-20 | the viewer and guest names have no scope |
| RoleService.SuperAdminHasEveryScope | services/role.ts:26 | super_admin has every scope string |
| RoleService.ListedGrantHeld | services/role.ts:24 | a catalogue role has each scope its list names |
| RoleService.AdminScopes | services/role.ts:22-28 | admin has `m:a` iff `m` is blog or staff, or `m:a` is user:read or organization read/update/delete |
| RoleService.EditorScopes | services/role.ts:22-28 | editor has `m:a` iff it is blog create/update/comment, organization:read or staff:read |
| RoleService.ReviewerScopes | services/role.ts:22-28 | reviewer has `m:a` iff it is blog review/read/comment, organization:read or staff:read |
| RoleService.UserScopes | services/role.ts:22-28 | user has `m:a` iff `m` is user, or it is blog comment/read |
| RoleService.BareModuleScope | services/role.ts:22-28 | a scope without ':' is held iff the role holds `*` or `<scope>:all` |
| RoleService.BareBlogScope | services/role.ts:22-28 | the bare scope `blog` is held by admin and not by editor |
| RoleService.PublishAndReviewMatrix | services/role.ts:17-32 | editor lacks publish and review; reviewer has review but not create; only admin of those has publish |
| Database.SeedRoles | config/constants/roles.ts:30-46 | one role row per default role, with id and name both the role's name |
| Database.SeededRolesAreCatalog | config/constants/roles.ts:30-46 | a seeded role row has a given id iff that id is a catalogue role |
| Database.SeededRoleLookup | services/role.ts:6-15 | with the seeded table, the role lookup finds an id iff it is a catalogue role, and returns the row named by it |
| Database.Store.RoleById | services/role.ts:6-15 | a row with the given id, or none when no row has it |
| Database.Store.UserByIdOrEmail | services/user.ts:70-85 | a user whose id or email equals the identifier, or none when no user has it as either |
| Database.Store.UserIndex | services/user.ts:119-124 | the first position whose user has the id, or none when no user has it |
| Database.Store.OrganizationById | services/organization.ts:33-41 | an organisation with the id, whatever its deleted flag, or none |
| Database.Store.StaffById | services/staff.ts:12-20 | a staff row with the id, or none |
| Database.Store.Membership | services/staff.ts:54-65 | a staff row of the user in the organisation, whatever its role or deleted flag, or none when there is none |
| Database.Store.BlogById | services/blog.ts:37-45 | a blog with the id, or none when no blog has it |
| Database.Store.BlogIndex | services/blog.ts:119-128 | the first position whose blog has the id, or none |
| Ids.Generator.Generate | universe/libraries/helper.ts:6 | a new id, never issued before, and recorded as issued |
| Ids.DecimalInjective | universe/libraries/helper.ts:6 | distinct counter values give distinct ids |
| ScopeHandler.OrganizationIdOf | universe/middlewares/scope-handler.ts:29-31 | the custom extractor's result when one is given, otherwise the `X-Org` header |
| ScopeHandler.ScopeGate | universe/middlewares/scope-handler.ts:18-58 | preflight passes untouched; the checks run in the order id → organisation → membership → scope, and the first failure decides; the context gains the organisation and staff row before the scope check; it passes iff the checks all hold |
| ScopeHandler.MemberRoleDecides | universe/middlewares/scope-handler.ts:46-57 | for a member, the lookup returns that member's row and role, and the final check holds iff the row's role has the scope |
| StaffService.AddChecks | services/staff.ts:23-65 | on success: the role is catalogued and stored, the user is found by id or email, the organisation exists, and the pair has no staff row |
| StaffService.AddOrder | services/staff.ts:23-65 | role, then user, then organisation, then duplicate pair: the first failing check gives its error (`ResourceNotFound` of that resource, or `ResourceExists(Staff)`) |
| StaffService.Add | services/staff.ts:22-79 | a failed check leaves the table and the id counter alone; otherwise exactly one row is appended with a fresh id, the resolved user id, the organisation id and the role id |
| StaffService.AddedStaffFound | services/staff.ts:54-78 | after the append, the membership lookup finds exactly the new row |
| StaffService.MembershipFindsRow | services/staff.ts:81-102 | with unique memberships, the lookup of a row's pair finds that row |
| StaffService.HasAccess | services/staff.ts:81-102 | no session gives `NeedSignin`; with one, it succeeds iff the user has a staff row there, otherwise `NotAllowedAccess`; the role returned is the row's role |
| StaffController.Add | controllers/staff.ts:10-49 | adding super_admin or admin fails with `NotAllowedAccess` unless the caller is super_admin, with nothing changed; otherwise it is `StaffService.Add` in the context's organisation, answered with 201 |
| StaffController.EscalationMatrix | controllers/staff.ts:25-31 | a super_admin may add any role; anyone else is refused exactly super_admin and admin; editor, reviewer and user are never refused |
| OrganizationService.Create | services/organization.ts:10-31 | no session gives `NeedSignin` with nothing changed; otherwise one organisation row is appended, with a fresh id and the session user as creator |
| OrganizationService.CreatedOrganizationFound | services/organization.ts:33-41 | the new organisation is the one the lookup finds by its id |
| OrganizationService.Add | services/organization.ts:43-50 | the same outcome and table change as `StaffService.Add` with the same arguments |
| OrganizationController.ActivatePatch | controllers/organization.ts:28-30 | the update sets only the active organisation |
| OrganizationController.ActivateChangesOnlyActive | controllers/organization.ts:28-30 | applied to the creator, the update changes the active organisation and nothing else |
| OrganizationController.EnrolmentOutcome | controllers/organization.ts:21-27 | the steps after the insert succeed iff a user has the creator's id; a failure leaves the users and cookies alone |
| OrganizationController.EnrolmentSucceeded | controllers/organization.ts:15-42 | on success: 201 with the organisation and a super_admin row of the creator, which the lookup finds; the creator's row gets the organisation as active; the cookies hold tokens minted from the updated row |
| OrganizationController.Create | controllers/organization.ts:10-43 | no session: `NeedSignin` and nothing changed; with one, the organisation row is stored and kept whatever follows (no rollback), and the rest is the enrolment above |
| OrganizationController.Enrol | controllers/organization.ts:21-42 | the staff insert, user update, tokens and cookies equal the value-level enrolment |
| OrganizationController.AddCreator | controllers/organization.ts:21-27 | an unknown creator gives `ResourceNotFound(User)`; otherwise the creator's super_admin row is appended |
| OrganizationController.Activate | controllers/organization.ts:28-42 | the user update, tokens and cookies equal the value-level activation |
| OrganizationController.EnrolChecks | controllers/organization.ts:21-27 | for a new organisation, the staff checks reduce to "a user has the creator id" |
| OrganizationController.NoStaffYet | controllers/organization.ts:21-27 | no staff row names an organisation id not yet issued |
| ContextService.GetSession | services/context.ts:5-13 | the stored session when there is one, otherwise `AccountNotFound` |
| ContextService.SessionReadersAgree | services/context.ts:5-13 | `GetSession` and the helper's `get` agree on success; on failure one raises `AccountNotFound` and the other `NeedSignin` |
| UserService.OptionalText | services/user.ts:52-58 | an absent optional field stays absent in the validated document |
| UserService.CreateChecks | services/user.ts:32-50 | an email that does not normalise gives the email validation error; an email already used as id or email gives `ResourceExists`; success yields the normalised email, unused by any user |
| UserService.Create | services/user.ts:19-68 | a failed check changes nothing; otherwise an id is drawn, and the validated new row is appended |
| UserService.NewUser | services/user.ts:52-67 | the validator's errors, or a row with the normalised email and the hashed password |
| UserService.Insert | services/user.ts:52-67 | one id drawn; the row of `NewUser` appended on success, nothing otherwise |
| UserService.CreatedUserFound | services/user.ts:70-85 | after the insert, the id-or-email lookup of the new email finds the new row |
| UserService.ApplyUpdate | services/user.ts:101-117 | id and email are kept; each field is replaced iff the patch gives it |
| UserService.ApplyUpdateLaws | services/user.ts:101-117 | the empty patch changes nothing, and applying a patch twice is applying it once |
| UserService.StoredPatch | services/user.ts:111-113 | the patch written has the password hashed, and every other field as given |
| UserService.Update | services/user.ts:87-127 | an unknown user gives `ResourceNotFound(User)`; a user found only by email gives `RecordNotFound`; otherwise only that row is patched |
| AuthService.CookieOptionsOf | services/auth.ts:14-26 | cookies are http-only and unsigned, secure iff SSL is configured; `sameSite` is the configured value when it is none/lax/strict and `lax` otherwise |
| AuthService.OrDefault | services/auth.ts:28-32 | the configured value when truthy, the default otherwise |
| AuthService.ExpiresIn | services/auth.ts:28-32 | unset expiries default to 15m for access, 30d for refresh and 24h for CSRF |
| AuthService.VerifyPassword | services/auth.ts:93-109 | passes iff a non-empty password matches the hash; empty gives the password-required error, a mismatch `InvalidCredentials` |
| AuthService.TokenClaimsFacts | services/auth.ts:117-137 | the payload is the user's public fields, the subject is the user id, and both tokens take the refresh expiry with distinct jwt ids |
| AuthService.CreateToken | services/auth.ts:111-140 | no user gives `ResourceNotFound(User)` with no id drawn; otherwise two ids are drawn and two tokens signed |
| AuthService.TokensFor | services/auth.ts:111-140 | for a found user, exactly the two tokens `CreateToken` signs |
| AuthService.WithCookie | services/auth.ts:146-166 | a cookie is written only for a truthy token |
| AuthService.CreateCookie | services/auth.ts:142-168 | the response's cookies become the access then refresh cookie writes, each with its own maximum age |
| AuthService.CookiesWritten | services/auth.ts:142-168 | with both tokens, both cookies are set under distinct names, and no other cookie changes |
| AuthService.SignInChecks | services/auth.ts:54-91 | success only for a stored user whose hash matches the given password |
| AuthService.SignInOrder | services/auth.ts:63-79 | invalid email, then unknown user, then password: the first failure decides |
| AuthService.SignIn | services/auth.ts:54-91 | a failed check draws no id; success returns the user and two tokens for it |
| AuthService.SignUp | services/auth.ts:34-52 | a failed create check or a document the validator rejects passes its error on and changes no user; an accepted document makes it succeed with exactly `UserService.NewUser`'s row, appended, and two tokens for it |
| AuthHelper.CookieKeys | services/auth-helper.ts:8-17 | bare names in production, `<env>_` prefixed names otherwise |
| AuthHelper.CookieKeysDistinct | services/auth-helper.ts:8-17 | the access and refresh cookie names differ |
| AuthHelper.CookieKeysInjective | services/auth-helper.ts:8-17 | the access cookie name determines the environment |
| AuthHelper.GetOrganizationId | services/auth-helper.ts:19-23 | the `X-Org` value when present and non-empty, otherwise none |
| AuthHelper.Fallback | services/auth-helper.ts:29-54 | the first truthy candidate, or the last candidate when none is truthy |
| AuthHelper.Checked | services/auth-helper.ts:55-61 | a truthy token that fails verification becomes none; any other token is kept |
| AuthHelper.GetTokens | services/auth-helper.ts:25-66 | the access token is the verified first of locals, production cookie, env cookie; the refresh token is the unverified first of its cookies |
| AuthHelper.AccessTokenOrder | services/auth-helper.ts:29-41 | locals first; the production cookie only in production; then the env-keyed cookie |
| AuthHelper.RefreshTokenOrder | services/auth-helper.ts:42-54 | the production cookie in production, else the env-keyed cookie |
| AuthHelper.SetSession | services/auth-helper.ts:68-80 | a token that fails verification gives `InvalidToken`; otherwise the session is the payload's user and the token is kept, other entries unchanged |
| AuthHelper.Get | services/auth-helper.ts:82-90 | the session user, or `NeedSignin` |
| AuthHelper.SessionRoundTrip | services/auth-helper.ts:68-90 | after a successful `setSession`, `get` yields the token's user |
| Helper.GetSanitizedEmail | universe/libraries/helper.ts:8-12 | the normalisation of the ASCII-lower-cased, trimmed input, or none when it is empty |
| Helper.SanitizedEmailDependsOnNormalForm | universe/libraries/helper.ts:8-12 | inputs with the same lower-cased trimmed form sanitise alike |
| Helper.SanitizedEmailIgnoresPadding | universe/libraries/helper.ts:8-12 | surrounding whitespace does not change the result |
| Helper.FieldEntries | universe/libraries/helper.ts:24-28 | one entry per message of a field, in order, each naming the field |
| Helper.ErrorsToParam | universe/libraries/helper.ts:22-30 | the nested loops build exactly the flattened report: fields in order, then messages in order |
| Helper.ParamsLength | universe/libraries/helper.ts:22-30 | the report has one entry per message |
| Helper.ParamsMembership | universe/libraries/helper.ts:24-28 | an entry is in the report iff its message is listed under its field |
| Helper.Without | universe/libraries/helper.ts:52 | the list without any occurrence of the item, and nothing else removed |
| Helper.StripRequired | universe/libraries/helper.ts:46-55 | list rules lose every `required`; string rules are unchanged |
| Helper.AppliedRules | universe/libraries/helper.ts:46-55 | the same keys; each rule stripped in update mode, unchanged otherwise |
| Helper.ValidationOutcome | universe/libraries/helper.ts:56-66 | no errors gives nothing; errors fail with the report in halt mode, and are returned otherwise |
| Helper.IsValidSchema | universe/libraries/helper.ts:33-67 | halt defaults to true and update to false; the outcome is that of the validator on the applied rules, and the caller's rules are not changed |
| Helper.UpdateModeStripsRequired | universe/libraries/helper.ts:46-55 | update mode leaves no `required` in a list rule and keeps string rules; otherwise the rules are unchanged |
| SchemaFormat.IdSuffixRemoved | universe/libraries/schema.ts:6-8 | a name ending in `_id`, with no earlier `_i`, loses exactly that suffix |
| SchemaFormat.IdExamples | universe/libraries/schema.ts:6-8 | `user_id` becomes `user` and `created_by_id` becomes `created_by` |
| SchemaFormat.FirstIdOccurrenceRemoved | universe/libraries/schema.ts:6-8 | the first `_id`, not the suffix, is removed: `user_identity_id` becomes `userentity_id` |
| SchemaFormat.IdRuleBeforeDottedRule | universe/libraries/schema.ts:6-12 | the `_id` rule wins over the dotted rule |
| SchemaFormat.DottedForm | universe/libraries/schema.ts:9-12 | a dotted name becomes `<child> of <parent>` with spaces for underscores, and has no underscore |
| SchemaFormat.DefaultForm | universe/libraries/schema.ts:13 | any other name has every underscore turned into a space, its length kept |
| PasswordRule.ComplexPassword | universe/schema/user.ts:3-13 | true iff the value is a string of 8 or more allowed characters with a lower-case letter, an upper-case letter, a digit and a special character |
| PasswordRule.LookaheadOnAllowed | universe/schema/user.ts:9 | on allowed characters, each lookahead means "some character of the class occurs" |
| PasswordRule.PatternIsComplexity | universe/schema/user.ts:9 | the regular expression as written matches exactly the strings the rule describes |
| PasswordRule.AcceptedExample | universe/schema/user.ts:9 | `Password@123` is accepted |
| PasswordRule.RejectedExample | universe/schema/user.ts:9 | `password` is rejected |
| PasswordRule.ForeignCharacterRejected | universe/schema/user.ts:9 | a string with any character outside the allowed set is rejected |
| PasswordRule.SpaceRejected | universe/schema/user.ts:9 | a string with a space is rejected |
| PasswordRule.NonStringsRejected | universe/schema/user.ts:6-8 | booleans, null and undefined are rejected |
| BlogService.Create | services/blog.ts:11-35 | one blog appended with a fresh id, in the context's organisation and by the context's staff member, published iff the option is true, not deleted |
| BlogService.ApplyBlogUpdate | services/blog.ts:103-119 | id, organisation and author are kept; each of content/title/published/deleted is replaced iff the patch gives it |
| BlogService.PositionKept | services/blog.ts:119-128 | rewriting a blog's first row with its id keeps that row first |
| BlogService.PatchBlogOutcome | services/blog.ts:86-129 | fails with `ResourceNotFound(Blog)` iff no blog has the id, with nothing changed; otherwise only the found row is rewritten and the lookup then finds the result |
| BlogService.PatchTwice | services/blog.ts:47-58 | the same update twice is the update once, so publishing twice is publishing once |
| BlogService.PublishThenUnPublish | services/blog.ts:47-71 | publish then un-publish leaves the blog unpublished, with everything else kept |
| BlogService.DeleteKeepsLiveBlog | services/blog.ts:73-84 | as written, deleting a live blog returns it unchanged and leaves the table as it was |
| BlogService.IntendedDeleteMarksDeleted | services/blog.ts:73-84 | the intended delete marks the blog deleted, changes nothing else of it, and the lookup finds it so marked |
| BlogService.Update | services/blog.ts:86-129 | the result and the new table are the value-level patch of the old table |
| BlogService.Publish | services/blog.ts:47-58 | the patch setting `published` to true |
| BlogService.UnPublish | services/blog.ts:60-71 | the patch setting `published` to false |
| BlogService.Delete | services/blog.ts:73-84 | the patch setting `deleted` to false, as written |
| BlogService.DeleteIntended | services/blog.ts:73-84 | the patch setting `deleted` to true |
| BlogService.Comment | services/blog.ts:132-148 | an unknown blog gives `ResourceNotFound(Blog)` with nothing changed; otherwise a comment on that blog by the session user |
| BlogService.Review | services/blog.ts:150-166 | an unknown blog gives `ResourceNotFound(Blog)` with nothing changed; otherwise a review of that blog by the context's staff member |
| CommentService.NewComment | services/comment.ts:10-31 | the validator's errors, or a live comment with the id, text, blog and session user |
| CommentService.NewReview | services/comment.ts:33-52 | the validator's errors, or a live review with the id, text, blog and staff member |
| CommentService.Create | services/comment.ts:10-31 | one id drawn; the new comment appended on success; a rejected document leaves the table as it was |
| CommentService.Review | services/comment.ts:33-52 | one id drawn; the new review appended on success; a rejected document leaves the table as it was |
| Routes.FirstMatch | api/blog.ts:10-68 | the first route that answers the verb and path, or none iff no route answers |
| Routes.Resolve | server.ts:20-23 | a route one of the mounted routers gives, or none iff none of them gives one |
| Routes.RoutedTo | server.ts:20-23 | under its prefix, a router dispatches to the first answering route |
| Routes.ResolvedBy | server.ts:20-23 | when only one mounted router answers, the server resolves to its route |
| Routes.OnlyBlogRouter | server.ts:20-23 | a `/v1/blog/...` path is answered by no other router |
| Routes.BlogUrlResolves | api/blog.ts:20-68 | `/v1/blog/<id>/<action>` with a non-empty id resolves to the blog route declared for that action |
| Routes.NoBlogDeleteRoute | api/blog.ts:10-68 | no route answers `/v1/blog/<id>/delete`, with any verb |
| Routes.OnlyOrganizationRouter | server.ts:20-23 | a `/v1/organization/...` path is answered by no other router |
| Routes.NoOrganizationLoginRoute | api/organization.ts:9-14 | no route answers `/v1/organization/<id>/login`, with any verb |
| Routes.UserRouteUnmounted | server.ts:20-23 | the user router's route is in no mounted router |
| Routes.AuthRoutesGates | api/auth.ts:7-30 | no auth route checks a scope, and only `/me` runs the authentication gate |
| Routes.ScopedRoutesAreSignedIn | api/blog.ts:10-68 | every blog, staff and user route runs the authentication gate and checks a scope; every scoped route is signed in |
| Routes.RunGates | api/blog.ts:10-68 | the authentication gate runs first and fails with `Unauthenticated` without a session; a route without scope then passes; it passes iff both gates admit |
| Routes.AdmittedRoleInCatalog | services/role.ts:18-20 | a role a scoped route admits is one of the five catalogue roles |
| Routes.AdminGrants | config/constants/scope.ts:42-49 | admin has blog create/publish/comment/review and staff create/read |
| Routes.EditorGrants | config/constants/scope.ts:50-56 | editor has blog create/comment and staff read, but not publish, review or staff create |
| Routes.ReviewerGrants | config/constants/scope.ts:57-63 | reviewer has blog comment/review and staff read, but not create, publish or staff create |
| Routes.UserGrants | config/constants/scope.ts:64-68 | user has blog comment only among those scopes |
| Routes.CreateBlogRoles | api/blog.ts:10-18 | creating a blog admits exactly super_admin, admin and editor |
| Routes.PublishBlogRoles | api/blog.ts:20-48 | publish admits exactly super_admin and admin, and un-publish and update admit the same roles |
| Routes.ReviewBlogRoles | api/blog.ts:60-68 | review admits exactly super_admin, admin and reviewer |
| Routes.CommentBlogRoles | api/blog.ts:50-58 | commenting admits all five roles |
| Routes.AddStaffRoles | api/staff.ts:9-15 | adding staff admits exactly super_admin and admin |
| Routes.ListUsersToAddRoles | api/user.ts:9-15 | listing users to add admits exactly super_admin, admin, editor and reviewer |
| Routes.BlogRouteMatrix | api/blog.ts:10-68 | editor creates but cannot publish, un-publish or update; admin can; reviewer reviews and editor cannot; user comments |
| Routes.EditorRefusedOnUpdate | api/blog.ts:40-48 | editor holds `blog:update` yet the update route refuses it, because it checks `blog:publish` |
| Routes.MemberGates | universe/middlewares/scope-handler.ts:29-57 | for a signed-in member named by `X-Org`, a route's gates pass iff the route admits the member's role |
| Routes.NonMemberRefused | api/blog.ts:50-58 | a signed-in user without a staff row in the `X-Org` organisation fails every scoped route, commenting included |
| Routes.AnySignedInUserCreatesOrganizations | api/organization.ts:9-14 | the organisation-creation gates pass iff a session is present, whatever the roles and headers |
| Routes.AdminAddsOnlyLowerRoles | controllers/staff.ts:25-31 | an admin passes the add-staff gate, and the controller then refuses exactly super_admin and admin |

## Left out

- I/O, Express plumbing, and the response shaping of controllers/blog.ts, controllers/auth.ts and controllers/user.ts are not modelled. They add no authorization logic, and they call services that are not part of this model.
- `OrganizationController.Login`, `GetMemberOrganizations` and `Get` are not modelled. The first two call `OrganizationService` functions that are not part of this model. `Get` only shapes a response.
- The authentication middleware is not part of this model. Its gate is the condition "a session is present", failing with `Unauthenticated`.
- Express path matching is modelled on paths already split into segments. Query strings, trailing slashes and regular-expression routes are not modelled.
- Routes.FirstMatch: compares literal path segments case-sensitively and requires the route's own verb. Express routers match paths case-insensitively by default and answer a `HEAD` request with a `GET` route, so `HEAD /v1/auth/me` reaches the `/me` handler in the source but resolves to no route here.
- Routes.Resolve: compares the mount prefixes case-sensitively. Express mounts match them case-insensitively by default, so `/V1/Blog/...` reaches the blog router in the source but no router here.
- Helper.GetSanitizedEmail: lower-cases ASCII letters only (`Text.Lower`), where JavaScript's `toLowerCase` follows the full Unicode case mapping. For example, U+212A KELVIN SIGN becomes `k` in the source but is kept here. The padding and normal-form lemmas hold of the model's lower-casing.
- ScopeHandler.IsPreflight: compares the verb with `options` after ASCII lower-casing. The source uses `toLocaleLowerCase`, whose result depends on the host locale (and full Unicode case mapping), and that dependence is not modelled.
- The validation rules of the schema library are opaque. `lib.validate` returns an error bag, and its meaning is not modelled.
- JWT signing and verification, password hashing and comparison, email normalisation, the duration parser and Snowflake ids are opaque functions. A generated id is the decimal spelling of a counter, which captures only that ids are fresh.
- Timestamps, Prisma `include` clauses, transactions and the absence of rollback in the database handle are not modelled. A failure after an insert simply keeps the insert.
- The asynchronous per-request context store becomes an explicit `Ctx` value that is passed in and returned. Per-request isolation under concurrency is not modelled.
- Environment variables become the `Config` parameter.
- The blog and organisation schema rule strings are not modelled. Their meaning lives in the validator library.
- The `requires ctx.x.Some?` clauses of `StaffController.Add`, `BlogService.Create`, `BlogService.Comment`, `BlogService.Review`, `CommentService.Create` and `CommentService.Review` stand for the source destructuring the context without a check. A missing context entry would throw a type error in the source, and that path is not modelled.
- ScopeHandler.ScopeGate, StaffService.HasAccess, Routes.MemberGates: these require the role table to hold exactly the seeded roles and every staff row to name a catalogue role. The store invariant and `StaffService.Add` keep both true. The source would fail on a staff row with a missing role row, and that path is not modelled.

## Findings

| source | as written | input that shows it | evidently intended | confidence | as-written member | corrected member |
|---|---|---|---|---|---|---|
| services/blog.ts:82 | `Delete` updates the blog with `deleted: false` | any blog that is not deleted: the delete returns it unchanged (test/auth/blog.test.ts:354 expects `deleted` to be true) | a soft delete writes `deleted: true` | not executed | BlogService.DeleteKeepsLiveBlog | BlogService.IntendedDeleteMarksDeleted |
