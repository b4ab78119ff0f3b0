/** `OrganizationService`: creating an organisation for the signed-in user, and adding staff to one. */
module OrganizationService {
  import opened Wrappers
  import opened Errors
  import opened Ids
  import opened Entities
  import opened Database
  import AuthHelper
  import StaffService

  /**
   * `Create`: a new organisation named `name`, created by the signed-in
   * user; the id is drawn only once the session is known to exist.
   */
  method Create(db: Store, gen: Generator, ctx: Ctx, name: string) returns (r: Result<Organization>)
    requires gen.Valid() && db.Valid(gen.issued)
    modifies db`organizations, gen
    ensures gen.Valid() && db.Valid(gen.issued)
    ensures ctx.session.None? ==>
      r == Failure(NeedSignin) && db.organizations == old(db.organizations) && gen.next == old(gen.next)
    ensures ctx.session.Some? ==>
      && r == Success(Organization(Decimal(old(gen.next)), name, ctx.session.value.id, false))
      && db.organizations == old(db.organizations) + [r.value]
      && gen.next == old(gen.next) + 1
    ensures r.Success? ==> r.value.id !in old(gen.issued)
  {
    var user :- AuthHelper.Get(ctx);
    ghost var issued0 := gen.issued;
    var id := gen.Generate();
    ValidGrows(db, issued0, gen.issued);
    var row := Organization(id, name, user.id, false);
    db.InsertOrganization(row, gen.issued);
    r := Success(row);
  }

  /** A row whose id was never handed out before is the one `Get` finds after the insert. */
  lemma CreatedOrganizationFound(db: Store, before: seq<Organization>, row: Organization, issued: set<string>)
    requires db.organizations == before + [row]
    requires OrganizationsOk(before, issued) && row.id !in issued
    ensures db.OrganizationById(row.id) == Some(row)
  {
    assert db.organizations[|before|] == row;
  }

  /** `Add`: exactly `StaffService.Add` with the same arguments. */
  method Add(db: Store, gen: Generator, organizationId: string, userId: string, roleId: string) returns (r: Result<Staff>)
    requires gen.Valid() && db.Valid(gen.issued)
    modifies db`staff, gen
    ensures gen.Valid() && db.Valid(gen.issued)
    ensures old(StaffService.AddChecks(db, userId, roleId, organizationId)).Failure? ==>
      && r == Failure(old(StaffService.AddChecks(db, userId, roleId, organizationId)).error)
      && db.staff == old(db.staff) && gen.next == old(gen.next)
    ensures old(StaffService.AddChecks(db, userId, roleId, organizationId)).Success? ==>
      var found := old(StaffService.AddChecks(db, userId, roleId, organizationId)).value;
      && r == Success(Staff(Decimal(old(gen.next)), found.0.id, found.1.id, found.2.id, false))
      && db.staff == old(db.staff) + [r.value]
      && gen.next == old(gen.next) + 1
  {
    r := StaffService.Add(db, gen, userId, roleId, organizationId);
  }
}
