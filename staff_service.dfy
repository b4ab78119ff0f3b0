/** `StaffService`: adding a user to an organisation, and the membership check behind every scoped route. */
module StaffService {
  import opened Wrappers
  import opened Errors
  import opened Ids
  import opened Roles
  import opened Entities
  import opened Database
  import AuthHelper

  /**
   * The checks of `Add`, in order: the role must be in the catalogue and in
   * the role table, the user and the organisation must exist, and the user
   * must not already be on the organisation's staff.
   */
  function AddChecks(db: Store, userId: string, roleId: string, organizationId: string): (r: Result<(User, Organization, Role)>)
    reads db
    ensures r.Success? ==> IsRole(roleId) && r.value.2 in db.roles && r.value.2.id == roleId
    ensures r.Success? ==> r.value.0 in db.users && (r.value.0.id == userId || r.value.0.email == userId)
    ensures r.Success? ==> r.value.1 in db.organizations && r.value.1.id == organizationId
    ensures r.Success? ==> forall s :: s in db.staff ==> !(s.userId == r.value.0.id && s.organizationId == organizationId)
  {
    if !IsRole(roleId) then Failure(ResourceNotFound(RoleResource))
    else match db.RoleById(roleId)
      case None => Failure(ResourceNotFound(RoleResource))
      case Some(role) =>
        match db.UserByIdOrEmail(userId)
        case None => Failure(ResourceNotFound(UserResource))
        case Some(user) =>
          match db.OrganizationById(organizationId)
          case None => Failure(ResourceNotFound(OrganizationResource))
          case Some(organization) =>
            if db.Membership(user.id, organization.id).Some? then Failure(ResourceExists(StaffResource))
            else Success((user, organization, role))
  }

  /** Which error `Add` raises: the first failing check decides, and it succeeds when none fails. */
  lemma AddOrder(db: Store, userId: string, roleId: string, organizationId: string)
    requires db.roles == SeedRoles(DefaultRoles)
    ensures !IsRole(roleId) ==> AddChecks(db, userId, roleId, organizationId) == Failure(ResourceNotFound(RoleResource))
    ensures IsRole(roleId) && db.UserByIdOrEmail(userId).None? ==>
      AddChecks(db, userId, roleId, organizationId) == Failure(ResourceNotFound(UserResource))
    ensures IsRole(roleId) && db.UserByIdOrEmail(userId).Some? && db.OrganizationById(organizationId).None? ==>
      AddChecks(db, userId, roleId, organizationId) == Failure(ResourceNotFound(OrganizationResource))
    ensures IsRole(roleId) && db.UserByIdOrEmail(userId).Some? && db.OrganizationById(organizationId).Some? ==>
      (AddChecks(db, userId, roleId, organizationId).Success? <==>
        db.Membership(db.UserByIdOrEmail(userId).value.id, organizationId).None?)
    ensures IsRole(roleId) && db.UserByIdOrEmail(userId).Some? && db.OrganizationById(organizationId).Some? ==>
      db.Membership(db.UserByIdOrEmail(userId).value.id, organizationId).Some? ==>
      AddChecks(db, userId, roleId, organizationId) == Failure(ResourceExists(StaffResource))
    ensures AddChecks(db, userId, roleId, organizationId).Success? ==>
      AddChecks(db, userId, roleId, organizationId).value ==
        (db.UserByIdOrEmail(userId).value, db.OrganizationById(organizationId).value, Role(roleId, roleId))
  {
    SeededRoleLookup(db, roleId);
  }

  /** `Add`: the checks, then a new staff row with a fresh id. */
  method Add(db: Store, gen: Generator, userId: string, roleId: string, organizationId: string) returns (r: Result<Staff>)
    requires gen.Valid() && db.Valid(gen.issued)
    modifies db`staff, gen
    ensures gen.Valid() && db.Valid(gen.issued)
    ensures old(AddChecks(db, userId, roleId, organizationId)).Failure? ==>
      && r == Failure(old(AddChecks(db, userId, roleId, organizationId)).error)
      && db.staff == old(db.staff) && gen.next == old(gen.next)
    ensures old(AddChecks(db, userId, roleId, organizationId)).Success? ==>
      var found := old(AddChecks(db, userId, roleId, organizationId)).value;
      && r == Success(Staff(Decimal(old(gen.next)), found.0.id, found.1.id, found.2.id, false))
      && db.staff == old(db.staff) + [r.value]
      && gen.next == old(gen.next) + 1
  {
    var checked := AddChecks(db, userId, roleId, organizationId);
    if checked.Failure? {
      return Failure(checked.error);
    }
    var (user, organization, role) := checked.value;
    ghost var issued0 := gen.issued;
    var id := gen.Generate();
    ValidGrows(db, issued0, gen.issued);
    var row := Staff(id, user.id, organization.id, role.id, false);
    db.InsertStaff(row, gen.issued);
    r := Success(row);
  }

  /** After `Add`, the membership lookup finds exactly the new row. */
  lemma AddedStaffFound(db: Store, before: seq<Staff>, row: Staff)
    requires db.staff == before + [row]
    requires forall s :: s in before ==> !(s.userId == row.userId && s.organizationId == row.organizationId)
    ensures db.Membership(row.userId, row.organizationId) == Some(row)
  {
    assert db.staff[|before|] == row;
  }

  /** With memberships unique, the membership lookup finds any given staff row. */
  lemma MembershipFindsRow(db: Store, i: nat)
    requires UniqueMembership(db.staff) && i < |db.staff|
    ensures db.Membership(db.staff[i].userId, db.staff[i].organizationId) == Some(db.staff[i])
  {
    var found := db.Membership(db.staff[i].userId, db.staff[i].organizationId);
    if found.Some? {
      var j :| 0 <= j < |db.staff| && db.staff[j] == found.value;
    }
  }

  /**
   * `hasAccess`: the signed-in user's staff row in the organisation, with
   * its role row. Every stored staff row names a catalogued role, and the
   * role table holds exactly the seeded roles.
   */
  function HasAccess(db: Store, ctx: Ctx, organizationId: string): (r: Result<StaffWithRole>)
    reads db
    requires db.roles == SeedRoles(DefaultRoles)
    requires forall s :: s in db.staff ==> IsRole(s.roleId)
    ensures ctx.session.None? ==> r == Failure(NeedSignin)
    ensures ctx.session.Some? ==> (r.Success? <==> db.Membership(ctx.session.value.id, organizationId).Some?)
    ensures ctx.session.Some? && r.Failure? ==> r.error == NotAllowedAccess
    ensures r.Success? ==>
      && r.value.staff in db.staff
      && r.value.staff.userId == ctx.session.value.id
      && r.value.staff.organizationId == organizationId
      && r.value.role == Role(r.value.staff.roleId, r.value.staff.roleId)
  {
    match AuthHelper.Get(ctx)
    case Failure(e) => Failure(e)
    case Success(user) =>
      match db.Membership(user.id, organizationId)
      case None => Failure(NotAllowedAccess)
      case Some(s) =>
        SeededRoleLookup(db, s.roleId);
        Success(StaffWithRole(s, db.RoleById(s.roleId).value))
  }
}
