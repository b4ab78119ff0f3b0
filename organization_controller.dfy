/**
 * `OrganizationController.Create`: create the organisation, make its creator
 * its super_admin, switch the creator's active organisation to it, and
 * issue fresh tokens and cookies. The steps are not undone when a later one
 * fails.
 */
module OrganizationController {
  import opened Wrappers
  import opened Errors
  import opened Ids
  import opened Roles
  import opened Entities
  import opened Foreign
  import opened Http
  import opened Database
  import opened AuthHelper
  import AuthService
  import UserService
  import OrganizationService
  import StaffService

  /** The update `{ active_organization_id: organizationId }`. */
  function ActivatePatch(organizationId: string): (d: UserService.UserUpdate)
    ensures d.activeOrganizationId == Set(Some(organizationId))
    ensures d.firstName.Keep? && d.lastName.Keep? && d.password.Keep?
  {
    UserService.UserUpdate(Keep, Keep, Keep, Set(Some(organizationId)))
  }

  /** Applying the patch changes the active organisation of the row and nothing else. */
  lemma ActivateChangesOnlyActive(u: User, organizationId: string, lib: Libraries)
    ensures UserService.ApplyUpdate(u, UserService.StoredPatch(ActivatePatch(organizationId), lib))
      == u.(activeOrganizationId := Some(organizationId))
  {
    var v := UserService.ApplyUpdate(u, UserService.StoredPatch(ActivatePatch(organizationId), lib));
    assert v.firstName == u.firstName && v.lastName == u.lastName && v.password == u.password;
  }

  /** The cookies `createCookie` leaves on a response for a token pair. */
  function CookiesFor(cookies: map<string, SetCookie>, t: AuthService.TokenPair, cfg: Config, lib: Libraries): map<string, SetCookie>
  {
    AuthService.WithCookie(
      AuthService.WithCookie(cookies, CookieKeys(cfg.env).accessToken, Some(t.accessToken),
        AuthService.CookieOptionsOf(cfg), AuthService.ExpiresIn(cfg, lib).accessToken),
      CookieKeys(cfg.env).refreshToken, Some(t.refreshToken),
      AuthService.CookieOptionsOf(cfg), AuthService.ExpiresIn(cfg, lib).refreshToken)
  }

  /** The two tokens minted for `u` from the generator position `n`. */
  function TokensAt(u: User, n: nat, cfg: Config, lib: Libraries): AuthService.TokenPair
  {
    AuthService.TokenPair(
      lib.sign(AuthService.Claims(u, Decimal(n), cfg, lib)),
      lib.sign(AuthService.Claims(u, Decimal(n + 1), cfg, lib)))
  }

  /** What the steps after the organisation insert leave behind. */
  datatype Enrolment = Enrolment(
    result: Result<Created<(Organization, Staff)>>,
    users: seq<User>,
    staff: seq<Staff>,
    cookies: map<string, SetCookie>)

  /**
   * The last steps on the tables as values: `update where id` on the
   * creator's row, then tokens drawn from generator position `n` for the
   * updated row, then the cookies.
   */
  function Activated(users: seq<User>, organization: Organization, row: Staff, n: nat, cookies: map<string, SetCookie>, cfg: Config, lib: Libraries)
    : (Result<Created<(Organization, Staff)>>, seq<User>, map<string, SetCookie>)
  {
    match UserPosition(users, organization.createdById)
    case None => (Failure(RecordNotFound), users, cookies)
    case Some(i) =>
      var user := users[i].(activeOrganizationId := Some(organization.id));
      (Success(Created(201, (organization, row))), users[i := user], CookiesFor(cookies, TokensAt(user, n, cfg, lib), cfg, lib))
  }

  /**
   * The steps after the organisation insert, on the tables as values: the
   * user found by the creator id gets a super_admin staff row with id
   * `Decimal(n)`, then the active-organisation update and the tokens.
   */
  function Enrolled(users: seq<User>, staff: seq<Staff>, organization: Organization, n: nat, cookies: map<string, SetCookie>, cfg: Config, lib: Libraries)
    : Enrolment
  {
    match FindUser(users, organization.createdById)
    case None => Enrolment(Failure(ResourceNotFound(UserResource)), users, staff, cookies)
    case Some(creator) =>
      var row := Staff(Decimal(n), creator.id, organization.id, SuperAdmin, false);
      var (result, users', cookies') := Activated(users, organization, row, n + 1, cookies, cfg, lib);
      Enrolment(result, users', staff + [row], cookies')
  }

  /**
   * `Create` succeeds exactly when a user row has the creator's id; a
   * failure leaves the users and the cookies as they were.
   */
  lemma EnrolmentOutcome(users: seq<User>, staff: seq<Staff>, organization: Organization, n: nat, cookies: map<string, SetCookie>, cfg: Config, lib: Libraries)
    ensures Enrolled(users, staff, organization, n, cookies, cfg, lib).result.Success? <==>
      exists u :: u in users && u.id == organization.createdById
    ensures Enrolled(users, staff, organization, n, cookies, cfg, lib).result.Failure? ==>
      && Enrolled(users, staff, organization, n, cookies, cfg, lib).users == users
      && Enrolled(users, staff, organization, n, cookies, cfg, lib).cookies == cookies
  {
    if u :| u in users && u.id == organization.createdById {
      assert FindUser(users, organization.createdById).Some?;
    }
  }

  /**
   * After a successful `Create`: the reply is 201 with the new organisation
   * and a super_admin staff row of the creator in it, which the membership
   * lookup finds; the creator's row now has the organisation as active one,
   * and the cookies hold tokens minted from that updated row.
   */
  lemma EnrolmentSucceeded(users: seq<User>, staff: seq<Staff>, organization: Organization, n: nat, cookies: map<string, SetCookie>, cfg: Config, lib: Libraries)
    requires forall s :: s in staff ==> s.organizationId != organization.id
    requires Enrolled(users, staff, organization, n, cookies, cfg, lib).result.Success?
    ensures var e := Enrolled(users, staff, organization, n, cookies, cfg, lib);
      var row := e.result.value.data.1;
      && e.result.value.status == 201
      && e.result.value.data.0 == organization
      && row.roleId == SuperAdmin && row.organizationId == organization.id && !row.deleted
      && (row.userId == organization.createdById || FindUser(users, organization.createdById).value.email == organization.createdById)
      && e.staff == staff + [row]
      && MemberRow(e.staff, row.userId, organization.id) == Some(row)
    ensures var e := Enrolled(users, staff, organization, n, cookies, cfg, lib);
      exists i :: 0 <= i < |e.users| && e.users == users[i := e.users[i]]
        && e.users[i] == users[i].(activeOrganizationId := Some(organization.id))
        && e.users[i].id == organization.createdById
        && e.cookies == CookiesFor(cookies, TokensAt(e.users[i], n + 1, cfg, lib), cfg, lib)
  {
    var e := Enrolled(users, staff, organization, n, cookies, cfg, lib);
    var row := e.result.value.data.1;
    assert e.staff[|staff|] == row;
    var i := UserPosition(users, organization.createdById).value;
    assert e.users == users[i := e.users[i]];
  }

  /**
   * `Create`. With a session, the organisation `Decimal(n)` (for generator
   * position `n`) is stored and stays stored whatever happens next; the
   * remaining steps are `Enrolled` from position `n + 1`.
   */
  method Create(db: Store, gen: Generator, ctx: Ctx, name: string, response: Response, cfg: Config, lib: Libraries)
    returns (r: Result<Created<(Organization, Staff)>>)
    requires gen.Valid() && db.Valid(gen.issued)
    modifies db`organizations, db`staff, db`users, gen, response`cookies
    ensures gen.Valid() && db.Valid(gen.issued)
    ensures ctx.session.None? ==>
      && r == Failure(NeedSignin)
      && db.organizations == old(db.organizations) && db.staff == old(db.staff) && db.users == old(db.users)
      && response.cookies == old(response.cookies)
    ensures ctx.session.Some? ==>
      var organization := Organization(Decimal(old(gen.next)), name, ctx.session.value.id, false);
      && db.organizations == old(db.organizations) + [organization]
      && Enrolment(r, db.users, db.staff, response.cookies) ==
         Enrolled(old(db.users), old(db.staff), organization, old(gen.next) + 1, old(response.cookies), cfg, lib)
    ensures ctx.session.Some? ==> forall s :: s in old(db.staff) ==> s.organizationId != Decimal(old(gen.next))
  {
    ghost var issued0, organizations0 := gen.issued, db.organizations;
    Ids.NotYetIssued(gen.next, gen.next);
    NoStaffYet(db, Decimal(gen.next), issued0);
    var organization :- OrganizationService.Create(db, gen, ctx, name);
    OrganizationService.CreatedOrganizationFound(db, organizations0, organization, issued0);
    r := Enrol(db, gen, organization, response, cfg, lib);
  }

  /** The steps after the organisation insert. */
  method Enrol(db: Store, gen: Generator, organization: Organization, response: Response, cfg: Config, lib: Libraries)
    returns (r: Result<Created<(Organization, Staff)>>)
    requires gen.Valid() && db.Valid(gen.issued)
    requires db.OrganizationById(organization.id) == Some(organization)
    requires forall s :: s in db.staff ==> s.organizationId != organization.id
    modifies db`staff, db`users, gen, response`cookies
    ensures gen.Valid() && db.Valid(gen.issued)
    ensures Enrolment(r, db.users, db.staff, response.cookies) ==
      Enrolled(old(db.users), old(db.staff), organization, old(gen.next), old(response.cookies), cfg, lib)
  {
    var added := AddCreator(db, gen, organization);
    if added.Failure? {
      return Failure(added.error);
    }
    r := Activate(db, gen, organization, added.value, response, cfg, lib);
  }

  /** `StaffService.Add` of the creator as super_admin of the organisation just stored. */
  method AddCreator(db: Store, gen: Generator, organization: Organization) returns (r: Result<Staff>)
    requires gen.Valid() && db.Valid(gen.issued)
    requires db.OrganizationById(organization.id) == Some(organization)
    requires forall s :: s in db.staff ==> s.organizationId != organization.id
    modifies db`staff, gen
    ensures gen.Valid() && db.Valid(gen.issued)
    ensures FindUser(old(db.users), organization.createdById).None? ==>
      r == Failure(ResourceNotFound(UserResource)) && db.staff == old(db.staff)
    ensures FindUser(old(db.users), organization.createdById).Some? ==>
      && r == Success(Staff(Decimal(old(gen.next)), FindUser(old(db.users), organization.createdById).value.id, organization.id, SuperAdmin, false))
      && db.staff == old(db.staff) + [r.value]
      && gen.next == old(gen.next) + 1
  {
    EnrolChecks(db, organization, gen.issued);
    r := StaffService.Add(db, gen, organization.createdById, SuperAdmin, organization.id);
  }

  /** The active-organisation update, then tokens and cookies for the updated row. */
  method Activate(db: Store, gen: Generator, organization: Organization, staff: Staff, response: Response, cfg: Config, lib: Libraries)
    returns (r: Result<Created<(Organization, Staff)>>)
    requires gen.Valid() && db.Valid(gen.issued)
    requires db.UserByIdOrEmail(organization.createdById).Some?
    modifies db`users, gen, response`cookies
    ensures gen.Valid() && db.Valid(gen.issued)
    ensures (r, db.users, response.cookies) ==
      Activated(old(db.users), organization, staff, old(gen.next), old(response.cookies), cfg, lib)
  {
    ghost var index := db.UserIndex(organization.createdById);
    ghost var users0 := db.users;
    var updated :- UserService.Update(db, gen.issued, organization.createdById, ActivatePatch(organization.id), lib);
    ActivateChangesOnlyActive(users0[index.value], organization.id, lib);
    var tokens := AuthService.TokensFor(db, updated, gen, cfg, lib);
    AuthService.CreateCookie(response, Some(tokens.accessToken), Some(tokens.refreshToken), cfg, lib);
    r := Success(Created(201, (organization, staff)));
  }

  /** For a just-stored organisation, `StaffService.Add` only depends on finding the creator. */
  lemma EnrolChecks(db: Store, organization: Organization, issued: set<string>)
    requires db.Valid(issued)
    requires db.OrganizationById(organization.id) == Some(organization)
    requires forall s :: s in db.staff ==> s.organizationId != organization.id
    ensures StaffService.AddChecks(db, organization.createdById, SuperAdmin, organization.id) ==
      match FindUser(db.users, organization.createdById)
      case None => Failure(ResourceNotFound(UserResource))
      case Some(creator) => Success((creator, organization, Role(SuperAdmin, SuperAdmin)))
  {
    StaffService.AddOrder(db, organization.createdById, SuperAdmin, organization.id);
  }

  /** A freshly drawn organisation id has no staff rows yet. */
  lemma NoStaffYet(db: Store, organizationId: string, issued: set<string>)
    requires StaffOk(db.staff, issued) && organizationId !in issued
    ensures forall s :: s in db.staff ==> s.organizationId != organizationId
  {
  }
}
