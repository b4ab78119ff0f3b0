/** `StaffController.Add`: the privilege-escalation guard in front of `StaffService.Add`. */
module StaffController {
  import opened Wrappers
  import opened Errors
  import opened Ids
  import opened Roles
  import opened Entities
  import opened Http
  import opened Database
  import StaffService

  /** Is `roleId` one of the two roles only a super_admin may hand out? */
  predicate IsPrivileged(roleId: string)
  {
    roleId == SuperAdmin || roleId == Admin
  }

  /** The guard refuses a privileged role unless the caller's own role is super_admin. */
  predicate Refused(roleId: string, caller: Option<StaffWithRole>)
    requires IsPrivileged(roleId) ==> caller.Some?
  {
    IsPrivileged(roleId) && caller.value.role.name != SuperAdmin
  }

  /**
   * `Add`: the target organisation and the caller's staff row come from the
   * context the scope gate wrote; the body's user and role are then added.
   */
  method Add(db: Store, gen: Generator, ctx: Ctx, userId: string, roleId: string) returns (r: Result<Created<Staff>>)
    requires gen.Valid() && db.Valid(gen.issued)
    requires ctx.organizationId.Some?
    requires IsPrivileged(roleId) ==> ctx.staff.Some?
    modifies db`staff, gen
    ensures gen.Valid() && db.Valid(gen.issued)
    ensures Refused(roleId, ctx.staff) ==>
      r == Failure(NotAllowedAccess) && db.staff == old(db.staff) && gen.next == old(gen.next)
    ensures !Refused(roleId, ctx.staff) && old(StaffService.AddChecks(db, userId, roleId, ctx.organizationId.value)).Failure? ==>
      && r == Failure(old(StaffService.AddChecks(db, userId, roleId, ctx.organizationId.value)).error)
      && db.staff == old(db.staff) && gen.next == old(gen.next)
    ensures !Refused(roleId, ctx.staff) && old(StaffService.AddChecks(db, userId, roleId, ctx.organizationId.value)).Success? ==>
      var found := old(StaffService.AddChecks(db, userId, roleId, ctx.organizationId.value)).value;
      && r == Success(Created(201, Staff(Decimal(old(gen.next)), found.0.id, found.1.id, found.2.id, false)))
      && db.staff == old(db.staff) + [r.value.data]
      && gen.next == old(gen.next) + 1
  {
    if roleId == SuperAdmin || roleId == Admin {
      if ctx.staff.value.role.name != SuperAdmin {
        return Failure(NotAllowedAccess);
      }
    }
    var staff :- StaffService.Add(db, gen, userId, roleId, ctx.organizationId.value);
    r := Success(Created(201, staff));
  }

  /**
   * Who may hand out which role: a super_admin any role; anyone else only
   * editor, reviewer or user.
   */
  lemma EscalationMatrix(caller: StaffWithRole, roleId: string)
    ensures caller.role.name == SuperAdmin ==> !Refused(roleId, Some(caller))
    ensures caller.role.name != SuperAdmin ==> (Refused(roleId, Some(caller)) <==> roleId in [SuperAdmin, Admin])
    ensures roleId in [Editor, Reviewer, Roles.User] ==> !Refused(roleId, Some(caller))
  {
  }
}
