/** The rows of the database tables and the per-request context. */
module Entities {
  import opened Wrappers

  /** One field of a partial update: left alone (`undefined`) or set to a value. */
  datatype Patch<T> = Keep | Set(value: T)
  {
    function Apply(current: T): T
    {
      match this
      case Keep => current
      case Set(v) => v
    }
  }

  datatype User = User(
    id: string,
    firstName: Option<string>,
    lastName: Option<string>,
    email: string,
    password: string,
    activeOrganizationId: Option<string>)

  datatype Organization = Organization(id: string, name: string, createdById: string, deleted: bool)

  datatype Role = Role(id: string, name: string)

  datatype Staff = Staff(id: string, userId: string, organizationId: string, roleId: string, deleted: bool)

  /** A staff row together with its role row (`include: { role: true }`). */
  datatype StaffWithRole = StaffWithRole(staff: Staff, role: Role)

  datatype Blog = Blog(
    id: string,
    title: string,
    content: string,
    organizationId: string,
    createdByStaffId: string,
    published: bool,
    deleted: bool)

  datatype Comment = Comment(id: string, comment: string, blogId: string, createdByUserId: string, deleted: bool)

  datatype Review = Review(id: string, review: string, blogId: string, createdByStaffId: string, deleted: bool)

  /** The session user carried inside a token. */
  datatype CommonUser = CommonUser(
    id: string,
    email: string,
    activeOrganizationId: Option<string>,
    firstName: Option<string>,
    lastName: Option<string>)

  /** The part of a user row that goes into a token. */
  function Payload(u: User): CommonUser
  {
    CommonUser(u.id, u.email, u.activeOrganizationId, u.firstName, u.lastName)
  }

  /** What a token carries: its payload and the signing options. */
  datatype TokenClaims = TokenClaims(data: CommonUser, jwtid: string, expiresIn: string, subject: string)

  /** The request-scoped context store, as an explicit value. */
  datatype Ctx = Ctx(
    session: Option<CommonUser>,
    accessToken: Option<string>,
    organizationId: Option<string>,
    staff: Option<StaffWithRole>)

  const EmptyCtx: Ctx := Ctx(None, None, None, None)
}
