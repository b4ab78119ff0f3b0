/**
 * The route tables: for every declared route, whether the authentication
 * gate runs in front of its handler and which scope the scope gate checks;
 * the routers the server mounts; and what the gates then decide.
 */
module Routes {
  import opened Wrappers
  import opened Errors
  import opened Roles
  import opened Scopes
  import opened Entities
  import opened Http
  import opened Database
  import RoleService
  import StaffService
  import ScopeHandler
  import StaffController

  /**
   * One route: its verb, its path pattern within its router (one string per
   * path segment, `:name` for a parameter), whether the authentication gate
   * runs, and the scope the scope gate checks, if one runs.
   */
  datatype Route = Route(verb: string, path: seq<string>, signedIn: bool, scope: Option<string>)

  /** A router mounted by the server under a path prefix. */
  datatype Mount = Mount(prefix: seq<string>, routes: seq<Route>)

  const CreateBlog: Route := Route("POST", [], true, Some(BlogCreate))
  const PublishBlog: Route := Route("PUT", [":id", "publish"], true, Some(BlogPublish))
  const UnPublishBlog: Route := Route("PUT", [":id", "un-publish"], true, Some(BlogPublish))
  const UpdateBlog: Route := Route("PUT", [":id", "update"], true, Some(BlogPublish))
  const CommentBlog: Route := Route("POST", [":id", "comment"], true, Some(BlogComment))
  const ReviewBlog: Route := Route("POST", [":id", "review"], true, Some(BlogReview))

  /** `BlogRouter`, in declaration order. */
  const BlogRoutes: seq<Route> := [CreateBlog, PublishBlog, UnPublishBlog, UpdateBlog, CommentBlog, ReviewBlog]

  const AddStaff: Route := Route("POST", [], true, Some(StaffCreate))

  /** `StaffRouter`. */
  const StaffRoutes: seq<Route> := [AddStaff]

  const ListUsersToAdd: Route := Route("GET", [":organization_id", "add-in-organization"], true, Some(StaffRead))

  /** `UserRouter`. */
  const UserRoutes: seq<Route> := [ListUsersToAdd]

  const SignUp: Route := Route("POST", ["signup"], false, None)
  const SignIn: Route := Route("POST", ["signin"], false, None)
  const Me: Route := Route("GET", ["me"], true, None)
  const SignOut: Route := Route("POST", ["signout"], false, None)

  /** `AuthRouter`, in declaration order. */
  const AuthRoutes: seq<Route> := [SignUp, SignIn, Me, SignOut]

  const CreateOrganization: Route := Route("POST", [], true, None)

  /** `OrganizationRouter`. */
  const OrganizationRoutes: seq<Route> := [CreateOrganization]

  /** The routers the server mounts, in mounting order; `UserRouter` is not among them. */
  const Server: seq<Mount> := [
    Mount(["v1", "auth"], AuthRoutes),
    Mount(["v1", "organization"], OrganizationRoutes),
    Mount(["v1", "staff"], StaffRoutes),
    Mount(["v1", "blog"], BlogRoutes)]

  /** A path-parameter segment of a pattern. */
  predicate IsParam(segment: string)
  {
    |segment| > 0 && segment[0] == ':'
  }

  /** Does a pattern match a request path: same length, literals equal, parameters non-empty? */
  predicate Matches(pattern: seq<string>, url: seq<string>)
  {
    && |pattern| == |url|
    && forall i :: 0 <= i < |pattern| ==> if IsParam(pattern[i]) then url[i] != "" else url[i] == pattern[i]
  }

  /** Does `route` answer `verb` on `url` (the path after the router's prefix)? */
  predicate Answers(route: Route, verb: string, url: seq<string>)
  {
    route.verb == verb && Matches(route.path, url)
  }

  /** A router's dispatch: the first route, in declaration order, that answers. */
  function FirstMatch(routes: seq<Route>, verb: string, url: seq<string>): (r: Option<nat>)
    ensures r.Some? ==> r.value < |routes| && Answers(routes[r.value], verb, url)
    ensures r.Some? ==> forall k :: 0 <= k < r.value ==> !Answers(routes[k], verb, url)
    ensures r.None? <==> forall k :: 0 <= k < |routes| ==> !Answers(routes[k], verb, url)
  {
    if routes == [] then None
    else if Answers(routes[0], verb, url) then Some(0)
    else match FirstMatch(routes[1..], verb, url)
      case None => None
      case Some(k) => Some(k + 1)
  }

  /** The route a mounted router sends the request to, if it answers. */
  function Routed(m: Mount, verb: string, url: seq<string>): Option<Route>
  {
    if m.prefix <= url then
      match FirstMatch(m.routes, verb, url[|m.prefix|..])
      case None => None
      case Some(k) => Some(m.routes[k])
    else None
  }

  /**
   * The server's dispatch: the routers are tried in mounting order and the
   * first one that answers handles the request; when none does, the
   * catch-all replies `NotFoundError`.
   */
  function Resolve(mounts: seq<Mount>, verb: string, url: seq<string>): (r: Option<Route>)
    ensures r.Some? ==> exists k :: 0 <= k < |mounts| && Routed(mounts[k], verb, url) == r
    ensures r.None? <==> forall k :: 0 <= k < |mounts| ==> Routed(mounts[k], verb, url).None?
  {
    if mounts == [] then None
    else if Routed(mounts[0], verb, url).Some? then Routed(mounts[0], verb, url)
    else
      var rest := Resolve(mounts[1..], verb, url);
      assert forall k :: 1 <= k < |mounts| ==> mounts[k] == mounts[1..][k - 1];
      rest
  }

  /** A mounted router sends the request to the first of its routes that answers. */
  lemma RoutedTo(m: Mount, verb: string, url: seq<string>, k: nat)
    requires m.prefix <= url && k < |m.routes|
    requires Answers(m.routes[k], verb, url[|m.prefix|..])
    requires forall j :: 0 <= j < k ==> !Answers(m.routes[j], verb, url[|m.prefix|..])
    ensures Routed(m, verb, url) == Some(m.routes[k])
  {
    var r := FirstMatch(m.routes, verb, url[|m.prefix|..]);
    assert r.Some?;
    assert !(r.value < k) && !(k < r.value);
  }

  /** The server hands the request to the one router that answers it. */
  lemma ResolvedBy(verb: string, url: seq<string>, k: nat, route: Route)
    requires k < |Server| && Routed(Server[k], verb, url) == Some(route)
    requires forall j :: 0 <= j < |Server| && j != k ==> Routed(Server[j], verb, url).None?
    ensures Resolve(Server, verb, url) == Some(route)
  {
  }

  /** A path under `/v1/blog` is answered by no other router. */
  lemma OnlyBlogRouter(verb: string, url: seq<string>)
    requires |url| >= 2 && url[0] == "v1" && url[1] == "blog"
    ensures forall j :: 0 <= j < 3 ==> Routed(Server[j], verb, url).None?
  {
    assert "blog"[0] == 'b';
    assert !(Server[0].prefix <= url) && !(Server[1].prefix <= url) && !(Server[2].prefix <= url);
  }

  /** Each blog action reaches its own route, whatever the blog id. */
  lemma BlogUrlResolves(id: string, action: string, k: nat)
    requires id != "" && 1 <= k < |BlogRoutes|
    requires BlogRoutes[k].path == [":id", action]
    ensures Resolve(Server, BlogRoutes[k].verb, ["v1", "blog", id, action]) == Some(BlogRoutes[k])
  {
    var url := ["v1", "blog", id, action];
    var verb := BlogRoutes[k].verb;
    assert url[2..] == [id, action];
    assert ":id"[0] == ':';
    forall j | 0 <= j < k
      ensures !Answers(BlogRoutes[j], verb, url[2..])
    {
      assert j == 0 || BlogRoutes[j].path[1] != action || BlogRoutes[j].verb != verb;
    }
    RoutedTo(Server[3], verb, url, k);
    OnlyBlogRouter(verb, url);
    ResolvedBy(verb, url, 3, BlogRoutes[k]);
  }

  /** No router answers a blog `delete` path, whatever the verb. */
  lemma NoBlogDeleteRoute(verb: string, id: string)
    ensures Resolve(Server, verb, ["v1", "blog", id, "delete"]) == None
  {
    var url := ["v1", "blog", id, "delete"];
    assert url[2..] == [id, "delete"];
    forall j | 0 <= j < |BlogRoutes|
      ensures !Answers(BlogRoutes[j], verb, url[2..])
    {
      assert j == 0 || BlogRoutes[j].path[1] != "delete";
    }
    OnlyBlogRouter(verb, url);
  }

  /** A path under `/v1/organization` reaches no other router. */
  lemma OnlyOrganizationRouter(verb: string, url: seq<string>)
    requires |url| >= 2 && url[0] == "v1" && url[1] == "organization"
    ensures Routed(Server[0], verb, url).None? && Routed(Server[2], verb, url).None? && Routed(Server[3], verb, url).None?
  {
    assert "organization"[0] == 'o';
    assert |"organization"| == 12;
    assert !(Server[0].prefix <= url) && !(Server[2].prefix <= url) && !(Server[3].prefix <= url);
  }

  /** No router answers an organisation `login` path, whatever the verb. */
  lemma NoOrganizationLoginRoute(verb: string, id: string)
    ensures Resolve(Server, verb, ["v1", "organization", id, "login"]) == None
  {
    var url := ["v1", "organization", id, "login"];
    assert url[2..] == [id, "login"];
    assert !Answers(OrganizationRoutes[0], verb, url[2..]);
    assert Routed(Server[1], verb, url).None?;
    OnlyOrganizationRouter(verb, url);
    assert forall k :: 0 <= k < |Server| ==> Routed(Server[k], verb, url).None?;
  }

  /** The user router's route is reachable from no mount. */
  lemma UserRouteUnmounted()
    ensures forall k :: 0 <= k < |Server| ==> ListUsersToAdd !in Server[k].routes
  {
  }

  /** Among the authentication routes only `/me` runs the authentication gate, and none runs a scope gate. */
  lemma AuthRoutesGates()
    ensures forall r :: r in AuthRoutes ==> r.scope.None? && (r.signedIn <==> r == Me)
  {
  }

  /**
   * Every blog, staff and user route runs both gates, and every route that
   * runs the scope gate runs the authentication gate first.
   */
  lemma ScopedRoutesAreSignedIn()
    ensures forall r :: r in BlogRoutes + StaffRoutes + UserRoutes ==> r.signedIn && r.scope.Some?
    ensures forall r :: r in AuthRoutes + OrganizationRoutes + BlogRoutes + StaffRoutes + UserRoutes ==>
      r.scope.Some? ==> r.signedIn
  {
  }

  /**
   * The gates of a route: the authentication gate wants a session, then
   * the scope gate (organisation from `X-Org`, as no route passes an
   * extractor) must admit the request.
   */
  predicate GatesPass(db: Store, ctx: Ctx, req: Request, route: Route)
    reads db
    requires db.roles == SeedRoles(DefaultRoles)
    requires forall s :: s in db.staff ==> IsRole(s.roleId)
  {
    && (route.signedIn ==> ctx.session.Some?)
    && (route.scope.Some? ==> ScopeHandler.Admits(db, ctx, req, route.scope.value, ScopeHandler.NoGateOptions))
  }

  /**
   * Run the middlewares in front of a route's handler, in order. The
   * authentication gate is modelled only as "a session is present".
   */
  method RunGates(db: Store, ctx: Ctx, req: Request, route: Route) returns (ctx': Ctx, outcome: Outcome)
    requires db.roles == SeedRoles(DefaultRoles)
    requires forall s :: s in db.staff ==> IsRole(s.roleId)
    ensures route.signedIn && ctx.session.None? ==> ctx' == ctx && outcome == Fail(Unauthenticated)
    ensures (route.signedIn ==> ctx.session.Some?) && route.scope.None? ==> ctx' == ctx && outcome == Pass
    ensures outcome.Pass? <==> GatesPass(db, ctx, req, route)
    ensures outcome.Fail? && outcome.error != Unauthenticated ==> route.scope.Some?
  {
    if route.signedIn && ctx.session.None? {
      return ctx, Fail(Unauthenticated);
    }
    if route.scope.None? {
      return ctx, Pass;
    }
    ctx', outcome := ScopeHandler.ScopeGate(db, ctx, req, route.scope.value, ScopeHandler.NoGateOptions);
  }

  /** May a staff row of role `role` get past `route`'s scope gate? */
  predicate RoleAdmitted(route: Route, role: string)
  {
    route.scope.None? || RoleService.HasScope(role, route.scope.value)
  }

  /** A role a scoped route admits is a catalog role: out-of-catalog names are refused. */
  lemma AdmittedRoleInCatalog(route: Route, role: string)
    requires route.scope.Some? && RoleAdmitted(route, role)
    ensures role == SuperAdmin || role == Admin || role == Editor || role == Reviewer || role == Roles.User
  {
    assert IsRole(role);
  }

  /** The admin's verdict on the blog scopes the routes check. */
  lemma AdminBlogGrants()
    ensures RoleService.HasScope(Admin, BlogCreate) && RoleService.HasScope(Admin, BlogPublish)
    ensures RoleService.HasScope(Admin, BlogComment) && RoleService.HasScope(Admin, BlogReview)
  {
    BlogScopeSpelling();
    RoleService.AdminScopes("blog", "create");
    RoleService.AdminScopes("blog", "publish");
    RoleService.AdminScopes("blog", "comment");
    RoleService.AdminScopes("blog", "review");
  }

  /** The admin's verdict on the staff scopes the routes check. */
  lemma AdminStaffGrants()
    ensures RoleService.HasScope(Admin, StaffCreate) && RoleService.HasScope(Admin, StaffRead)
  {
    StaffScopeSpelling();
    RoleService.AdminScopes("staff", "create");
    RoleService.AdminScopes("staff", "read");
  }

  /** The admin's verdict on every scope the routes check. */
  lemma AdminGrants()
    ensures RoleService.HasScope(Admin, BlogCreate) && RoleService.HasScope(Admin, BlogPublish)
    ensures RoleService.HasScope(Admin, BlogComment) && RoleService.HasScope(Admin, BlogReview)
    ensures RoleService.HasScope(Admin, StaffCreate) && RoleService.HasScope(Admin, StaffRead)
  {
    AdminBlogGrants();
    AdminStaffGrants();
  }

  /** The editor's verdict on the blog scopes the routes check. */
  lemma EditorBlogGrants()
    ensures RoleService.HasScope(Editor, BlogCreate) && !RoleService.HasScope(Editor, BlogPublish)
    ensures RoleService.HasScope(Editor, BlogComment) && !RoleService.HasScope(Editor, BlogReview)
  {
    BlogScopeSpelling();
    RoleService.EditorScopes("blog", "create");
    RoleService.EditorScopes("blog", "publish");
    RoleService.EditorScopes("blog", "comment");
    RoleService.EditorScopes("blog", "review");
  }

  /** The editor's verdict on the staff scopes the routes check. */
  lemma EditorStaffGrants()
    ensures !RoleService.HasScope(Editor, StaffCreate) && RoleService.HasScope(Editor, StaffRead)
  {
    StaffScopeSpelling();
    RoleService.EditorScopes("staff", "create");
    RoleService.EditorScopes("staff", "read");
  }

  /** The editor's verdict on every scope the routes check. */
  lemma EditorGrants()
    ensures RoleService.HasScope(Editor, BlogCreate) && !RoleService.HasScope(Editor, BlogPublish)
    ensures RoleService.HasScope(Editor, BlogComment) && !RoleService.HasScope(Editor, BlogReview)
    ensures !RoleService.HasScope(Editor, StaffCreate) && RoleService.HasScope(Editor, StaffRead)
  {
    EditorBlogGrants();
    EditorStaffGrants();
  }

  /** The reviewer's verdict on the blog scopes the routes check. */
  lemma ReviewerBlogGrants()
    ensures !RoleService.HasScope(Reviewer, BlogCreate) && !RoleService.HasScope(Reviewer, BlogPublish)
    ensures RoleService.HasScope(Reviewer, BlogComment) && RoleService.HasScope(Reviewer, BlogReview)
  {
    BlogScopeSpelling();
    RoleService.ReviewerScopes("blog", "create");
    RoleService.ReviewerScopes("blog", "publish");
    RoleService.ReviewerScopes("blog", "comment");
    RoleService.ReviewerScopes("blog", "review");
  }

  /** The reviewer's verdict on the staff scopes the routes check. */
  lemma ReviewerStaffGrants()
    ensures !RoleService.HasScope(Reviewer, StaffCreate) && RoleService.HasScope(Reviewer, StaffRead)
  {
    StaffScopeSpelling();
    RoleService.ReviewerScopes("staff", "create");
    RoleService.ReviewerScopes("staff", "read");
  }

  /** The reviewer's verdict on every scope the routes check. */
  lemma ReviewerGrants()
    ensures !RoleService.HasScope(Reviewer, BlogCreate) && !RoleService.HasScope(Reviewer, BlogPublish)
    ensures RoleService.HasScope(Reviewer, BlogComment) && RoleService.HasScope(Reviewer, BlogReview)
    ensures !RoleService.HasScope(Reviewer, StaffCreate) && RoleService.HasScope(Reviewer, StaffRead)
  {
    ReviewerBlogGrants();
    ReviewerStaffGrants();
  }

  /** The user role's verdict on the blog scopes the routes check. */
  lemma UserBlogGrants()
    ensures !RoleService.HasScope(Roles.User, BlogCreate) && !RoleService.HasScope(Roles.User, BlogPublish)
    ensures RoleService.HasScope(Roles.User, BlogComment) && !RoleService.HasScope(Roles.User, BlogReview)
  {
    BlogScopeSpelling();
    RoleService.UserScopes("blog", "create");
    RoleService.UserScopes("blog", "publish");
    RoleService.UserScopes("blog", "comment");
    RoleService.UserScopes("blog", "review");
  }

  /** The user role's verdict on the staff scopes the routes check. */
  lemma UserStaffGrants()
    ensures !RoleService.HasScope(Roles.User, StaffCreate) && !RoleService.HasScope(Roles.User, StaffRead)
  {
    StaffScopeSpelling();
    RoleService.UserScopes("staff", "create");
    RoleService.UserScopes("staff", "read");
  }

  /** The user role's verdict on every scope the routes check. */
  lemma UserGrants()
    ensures !RoleService.HasScope(Roles.User, BlogCreate) && !RoleService.HasScope(Roles.User, BlogPublish)
    ensures RoleService.HasScope(Roles.User, BlogComment) && !RoleService.HasScope(Roles.User, BlogReview)
    ensures !RoleService.HasScope(Roles.User, StaffCreate) && !RoleService.HasScope(Roles.User, StaffRead)
  {
    UserBlogGrants();
    UserStaffGrants();
  }

  /** Creating a blog admits super_admin, admin and editor; reviewer and user are refused. */
  lemma CreateBlogRoles()
    ensures forall r :: RoleAdmitted(CreateBlog, r) <==> r == SuperAdmin || r == Admin || r == Editor
  {
    RoleService.SuperAdminHasEveryScope(BlogCreate);
    AdminGrants();
    EditorGrants();
    ReviewerGrants();
    UserGrants();
    forall r | RoleAdmitted(CreateBlog, r)
      ensures r == SuperAdmin || r == Admin || r == Editor
    {
      AdmittedRoleInCatalog(CreateBlog, r);
    }
  }

  /** Publishing admits only super_admin and admin; un-publishing and updating check the same scope. */
  lemma PublishBlogRoles()
    ensures forall r :: RoleAdmitted(PublishBlog, r) <==> r == SuperAdmin || r == Admin
    ensures forall r :: RoleAdmitted(UnPublishBlog, r) <==> RoleAdmitted(PublishBlog, r)
    ensures forall r :: RoleAdmitted(UpdateBlog, r) <==> RoleAdmitted(PublishBlog, r)
  {
    RoleService.SuperAdminHasEveryScope(BlogPublish);
    AdminGrants();
    EditorGrants();
    ReviewerGrants();
    UserGrants();
    forall r | RoleAdmitted(PublishBlog, r)
      ensures r == SuperAdmin || r == Admin
    {
      AdmittedRoleInCatalog(PublishBlog, r);
    }
  }

  /** Reviewing admits super_admin, admin and reviewer; the editor is refused. */
  lemma ReviewBlogRoles()
    ensures forall r :: RoleAdmitted(ReviewBlog, r) <==> r == SuperAdmin || r == Admin || r == Reviewer
  {
    RoleService.SuperAdminHasEveryScope(BlogReview);
    AdminGrants();
    EditorGrants();
    ReviewerGrants();
    UserGrants();
    forall r | RoleAdmitted(ReviewBlog, r)
      ensures r == SuperAdmin || r == Admin || r == Reviewer
    {
      AdmittedRoleInCatalog(ReviewBlog, r);
    }
  }

  /** Every catalog role holds `blog:comment`, and no other name does. */
  lemma CommentBlogRoles()
    ensures forall r :: RoleAdmitted(CommentBlog, r) <==> r == SuperAdmin || r == Admin || r == Editor || r == Reviewer || r == Roles.User
  {
    RoleService.SuperAdminHasEveryScope(BlogComment);
    AdminGrants();
    EditorGrants();
    ReviewerGrants();
    UserGrants();
    forall r | RoleAdmitted(CommentBlog, r)
      ensures r == SuperAdmin || r == Admin || r == Editor || r == Reviewer || r == Roles.User
    {
      AdmittedRoleInCatalog(CommentBlog, r);
    }
  }

  /** Adding staff admits only super_admin and admin. */
  lemma AddStaffRoles()
    ensures forall r :: RoleAdmitted(AddStaff, r) <==> r == SuperAdmin || r == Admin
  {
    RoleService.SuperAdminHasEveryScope(StaffCreate);
    AdminGrants();
    EditorGrants();
    ReviewerGrants();
    UserGrants();
    forall r | RoleAdmitted(AddStaff, r)
      ensures r == SuperAdmin || r == Admin
    {
      AdmittedRoleInCatalog(AddStaff, r);
    }
  }

  /** Listing users to add admits every catalog role but user. */
  lemma ListUsersToAddRoles()
    ensures forall r :: RoleAdmitted(ListUsersToAdd, r) <==> r == SuperAdmin || r == Admin || r == Editor || r == Reviewer
  {
    RoleService.SuperAdminHasEveryScope(StaffRead);
    AdminGrants();
    EditorGrants();
    ReviewerGrants();
    UserGrants();
    forall r | RoleAdmitted(ListUsersToAdd, r)
      ensures r == SuperAdmin || r == Admin || r == Editor || r == Reviewer
    {
      AdmittedRoleInCatalog(ListUsersToAdd, r);
    }
  }

  /**
   * The blog routes' role matrix as the tests exercise it: create admits
   * the editor but not the reviewer; publish, un-publish and update admit
   * neither; review admits the reviewer but not the editor.
   */
  lemma BlogRouteMatrix()
    ensures RoleAdmitted(CreateBlog, Editor) && !RoleAdmitted(CreateBlog, Reviewer) && !RoleAdmitted(CreateBlog, Roles.User)
    ensures !RoleAdmitted(PublishBlog, Editor) && !RoleAdmitted(UnPublishBlog, Editor) && !RoleAdmitted(UpdateBlog, Editor)
    ensures RoleAdmitted(PublishBlog, Admin) && RoleAdmitted(UnPublishBlog, Admin) && RoleAdmitted(UpdateBlog, Admin)
    ensures RoleAdmitted(ReviewBlog, Reviewer) && !RoleAdmitted(ReviewBlog, Editor)
    ensures RoleAdmitted(CommentBlog, Roles.User)
  {
    AdminGrants();
    EditorGrants();
    ReviewerGrants();
    UserGrants();
  }

  /**
   * The update route checks `blog:publish`, not `blog:update`: the editor
   * holds `blog:update` and is still refused there.
   */
  lemma EditorRefusedOnUpdate()
    ensures RoleService.HasScope(Editor, BlogUpdate)
    ensures !RoleAdmitted(UpdateBlog, Editor)
  {
    BlogScopeSpelling();
    RoleService.EditorScopes("blog", "update");
    RoleService.EditorScopes("blog", "publish");
  }

  /**
   * For a signed-in user on the staff of the organisation named by
   * `X-Org`, the gates of a route pass exactly when the route admits the
   * role of that staff row.
   */
  lemma MemberGates(db: Store, ctx: Ctx, req: Request, route: Route, i: nat)
    requires db.roles == SeedRoles(DefaultRoles)
    requires forall s :: s in db.staff ==> IsRole(s.roleId)
    requires UniqueMembership(db.staff) && i < |db.staff|
    requires ctx.session.Some? && db.staff[i].userId == ctx.session.value.id
    requires !ScopeHandler.IsPreflight(req)
    requires Header(req, "X-Org") == Some(db.staff[i].organizationId) && db.staff[i].organizationId != ""
    requires db.OrganizationById(db.staff[i].organizationId).Some?
    ensures GatesPass(db, ctx, req, route) <==> RoleAdmitted(route, db.staff[i].roleId)
  {
    if route.scope.Some? {
      ScopeHandler.MemberRoleDecides(db, ctx, i, route.scope.value);
    }
  }

  /**
   * A signed-in user with no staff row in the `X-Org` organisation is
   * refused by every scoped route, the comment route included, whatever
   * roles the catalog gives.
   */
  lemma NonMemberRefused(db: Store, ctx: Ctx, req: Request, route: Route)
    requires db.roles == SeedRoles(DefaultRoles)
    requires forall s :: s in db.staff ==> IsRole(s.roleId)
    requires ctx.session.Some? && !ScopeHandler.IsPreflight(req) && route.scope.Some?
    requires Header(req, "X-Org").Some?
    requires db.Membership(ctx.session.value.id, Header(req, "X-Org").value).None?
    ensures !GatesPass(db, ctx, req, route)
  {
  }

  /**
   * Creating an organisation needs only a session: any signed-in user
   * passes, with or without `X-Org` and whatever their staff rows.
   */
  lemma AnySignedInUserCreatesOrganizations(db: Store, ctx: Ctx, req: Request)
    requires db.roles == SeedRoles(DefaultRoles)
    requires forall s :: s in db.staff ==> IsRole(s.roleId)
    ensures GatesPass(db, ctx, req, CreateOrganization) <==> ctx.session.Some?
  {
  }

  /**
   * An admin gets past the staff route's gate, and the controller's guard
   * then refuses exactly the admin and super_admin roles.
   */
  lemma AdminAddsOnlyLowerRoles(caller: StaffWithRole, roleId: string)
    requires caller.role.name == Admin
    ensures RoleAdmitted(AddStaff, caller.role.name)
    ensures StaffController.Refused(roleId, Some(caller)) <==> roleId in [SuperAdmin, Admin]
  {
    AdminGrants();
    StaffController.EscalationMatrix(caller, roleId);
  }
}
