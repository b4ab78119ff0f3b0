/** `ScopeHandlerMiddleware`: the organisation-scoped permission gate. */
module ScopeHandler {
  import opened Wrappers
  import opened Text
  import opened Errors
  import opened Roles
  import opened Entities
  import opened Http
  import opened Database
  import RoleService
  import StaffService

  /** The middleware's options: an optional extractor of the organisation id. */
  datatype GateOptions = GateOptions(getOrganizationId: Option<Request -> Option<string>>)

  /** No options: the id comes from the `X-Org` header. */
  const NoGateOptions: GateOptions := GateOptions(None)

  /** The organisation id the gate checks: the extractor's answer, or else the `X-Org` header. */
  function OrganizationIdOf(req: Request, options: GateOptions): (r: Option<string>)
    ensures options.getOrganizationId.Some? ==> r == options.getOrganizationId.value(req)
    ensures options.getOrganizationId.None? ==> r == Header(req, "X-Org")
  {
    match options.getOrganizationId
    case Some(extract) => extract(req)
    case None => Header(req, "X-Org")
  }

  /** Is the request a CORS pre-flight (`OPTIONS`, in any letter case)? */
  predicate IsPreflight(req: Request)
  {
    Lower(req.verb) == "options"
  }

  /**
   * When the gate lets a request through: a pre-flight, or a truthy id that
   * names an organisation the signed-in user is on the staff of, with a role
   * that holds the scope.
   */
  predicate Admits(db: Store, ctx: Ctx, req: Request, scope: string, options: GateOptions)
    reads db
    requires db.roles == SeedRoles(DefaultRoles)
    requires forall s :: s in db.staff ==> IsRole(s.roleId)
  {
    || IsPreflight(req)
    || (&& Truthy(OrganizationIdOf(req, options))
        && db.OrganizationById(OrganizationIdOf(req, options).value).Some?
        && StaffService.HasAccess(db, ctx, OrganizationIdOf(req, options).value).Success?
        && RoleService.HasScope(StaffService.HasAccess(db, ctx, OrganizationIdOf(req, options).value).value.role.name, scope))
  }

  /**
   * The gate for `scope`. First failing check decides: the id must be
   * truthy, name an organisation, and the signed-in user must be on its
   * staff; the context is then given the organisation and the staff row,
   * and the staff role must hold the scope.
   */
  method ScopeGate(db: Store, ctx: Ctx, req: Request, scope: string, options: GateOptions) returns (ctx': Ctx, outcome: Outcome)
    requires db.roles == SeedRoles(DefaultRoles)
    requires forall s :: s in db.staff ==> IsRole(s.roleId)
    ensures IsPreflight(req) ==> ctx' == ctx && outcome == Pass
    ensures !IsPreflight(req) && !Truthy(OrganizationIdOf(req, options)) ==>
      ctx' == ctx && outcome == Fail(ResourceNotFound(OrganizationResource))
    ensures !IsPreflight(req) && Truthy(OrganizationIdOf(req, options)) ==>
      var id := OrganizationIdOf(req, options).value;
      && (db.OrganizationById(id).None? ==> ctx' == ctx && outcome == Fail(ResourceNotFound(OrganizationResource)))
      && (db.OrganizationById(id).Some? && StaffService.HasAccess(db, ctx, id).Failure? ==>
            ctx' == ctx && outcome == Fail(StaffService.HasAccess(db, ctx, id).error))
      && (db.OrganizationById(id).Some? && StaffService.HasAccess(db, ctx, id).Success? ==>
            var member := StaffService.HasAccess(db, ctx, id).value;
            && ctx' == ctx.(organizationId := Some(id), staff := Some(member))
            && outcome == (if RoleService.HasScope(member.role.name, scope) then Pass else Fail(NotAllowedAccess)))
    ensures outcome.Pass? <==> Admits(db, ctx, req, scope, options)
  {
    if Lower(req.verb) == "options" {
      return ctx, Pass;
    }
    var organizationId := OrganizationIdOf(req, options);
    if !Truthy(organizationId) {
      return ctx, Fail(ResourceNotFound(OrganizationResource));
    }
    var organization := db.OrganizationById(organizationId.value);
    if organization.None? {
      return ctx, Fail(ResourceNotFound(OrganizationResource));
    }
    var access := StaffService.HasAccess(db, ctx, organizationId.value);
    if access.Failure? {
      return ctx, Fail(access.error);
    }
    ctx' := ctx.(organizationId := Some(organization.value.id), staff := Some(access.value));
    if RoleService.HasScope(access.value.role.name, scope) {
      outcome := Pass;
    } else {
      outcome := Fail(NotAllowedAccess);
    }
  }

  /**
   * For a signed-in user with a staff row in the organisation, the role of
   * that row alone decides: the gate's final check holds iff the role has
   * the scope, whatever the deleted flag.
   */
  lemma MemberRoleDecides(db: Store, ctx: Ctx, i: nat, scope: string)
    requires db.roles == SeedRoles(DefaultRoles)
    requires forall s :: s in db.staff ==> IsRole(s.roleId)
    requires UniqueMembership(db.staff) && i < |db.staff|
    requires ctx.session.Some? && db.staff[i].userId == ctx.session.value.id
    ensures StaffService.HasAccess(db, ctx, db.staff[i].organizationId) == Success(StaffWithRole(db.staff[i], Role(db.staff[i].roleId, db.staff[i].roleId)))
    ensures RoleService.HasScope(StaffService.HasAccess(db, ctx, db.staff[i].organizationId).value.role.name, scope) <==>
      RoleService.HasScope(db.staff[i].roleId, scope)
  {
    StaffService.MembershipFindsRow(db, i);
  }
}
