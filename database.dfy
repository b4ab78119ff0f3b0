/**
 * The in-memory tables (users, organisations, roles, staff, blogs, comments,
 * reviews) and the lookups the services run against them.
 */
module Database {
  import opened Wrappers
  import opened Ids
  import opened Roles
  import opened Entities

  /** Prisma `findFirst`: the index of the first row satisfying `p`. */
  function FindFirst<T>(rows: seq<T>, p: T -> bool): (r: Option<nat>)
    ensures r.Some? ==> r.value < |rows| && p(rows[r.value])
    ensures r.Some? ==> forall j :: 0 <= j < r.value ==> !p(rows[j])
    ensures r.None? ==> forall j :: 0 <= j < |rows| ==> !p(rows[j])
  {
    if rows == [] then None
    else if p(rows[0]) then Some(0)
    else match FindFirst(rows[1..], p)
      case None => None
      case Some(k) => Some(k + 1)
  }

  /** The role rows written by seeding: one per default role, its id being its name. */
  function SeedRoles(defaults: seq<RoleCreate>): (rs: seq<Role>)
    ensures |rs| == |defaults|
    ensures forall i :: 0 <= i < |rs| ==> rs[i] == Role(defaults[i].name, defaults[i].name)
  {
    if defaults == [] then [] else [Role(defaults[0].name, defaults[0].name)] + SeedRoles(defaults[1..])
  }

  /** The first user row whose id or email is `identifier`. */
  function FindUser(users: seq<User>, identifier: string): (r: Option<User>)
    ensures r.Some? ==> r.value in users && (r.value.id == identifier || r.value.email == identifier)
    ensures r.None? ==> forall u :: u in users ==> u.id != identifier && u.email != identifier
  {
    match FindFirst(users, (u: User) => u.id == identifier || u.email == identifier)
    case Some(i) => Some(users[i])
    case None => None
  }

  /** The position of the first user row whose id is `id`. */
  function UserPosition(users: seq<User>, id: string): (r: Option<nat>)
    ensures r.Some? ==> r.value < |users| && users[r.value].id == id
    ensures r.Some? ==> forall j :: 0 <= j < r.value ==> users[j].id != id
    ensures r.None? ==> forall u :: u in users ==> u.id != id
  {
    FindFirst(users, (u: User) => u.id == id)
  }

  /** The first staff row of `userId` in `organizationId`. */
  function MemberRow(staff: seq<Staff>, userId: string, organizationId: string): (r: Option<Staff>)
    ensures r.Some? ==> r.value in staff && r.value.userId == userId && r.value.organizationId == organizationId
    ensures r.None? ==> forall s :: s in staff ==> !(s.userId == userId && s.organizationId == organizationId)
  {
    match FindFirst(staff, (s: Staff) => s.userId == userId && s.organizationId == organizationId)
    case Some(i) => Some(staff[i])
    case None => None
  }

  /** The position of the first blog row whose id is `id`. */
  function BlogPosition(blogs: seq<Blog>, id: string): (r: Option<nat>)
    ensures r.Some? ==> r.value < |blogs| && blogs[r.value].id == id
    ensures r.Some? ==> forall j :: 0 <= j < r.value ==> blogs[j].id != id
    ensures r.None? ==> forall b :: b in blogs ==> b.id != id
  {
    FindFirst(blogs, (b: Blog) => b.id == id)
  }

  /** The first blog row whose id is `id`. */
  function FindBlog(blogs: seq<Blog>, id: string): (r: Option<Blog>)
    ensures r.Some? ==> r.value in blogs && r.value.id == id
    ensures r.None? ==> forall b :: b in blogs ==> b.id != id
  {
    match BlogPosition(blogs, id)
    case Some(i) => Some(blogs[i])
    case None => None
  }

  /** No two staff rows share a (user, organisation) pair. */
  predicate UniqueMembership(staff: seq<Staff>)
  {
    forall i, j :: 0 <= i < j < |staff| ==>
      !(staff[i].userId == staff[j].userId && staff[i].organizationId == staff[j].organizationId)
  }

  /** No two users share an email address. */
  predicate UniqueEmails(users: seq<User>)
  {
    forall i, j :: 0 <= i < j < |users| ==> users[i].email != users[j].email
  }

  /** Each table's invariant, stated on the table's rows alone. */
  ghost predicate UsersOk(users: seq<User>, issued: set<string>)
  {
    UniqueEmails(users) && forall u :: u in users ==> u.id in issued
  }

  ghost predicate OrganizationsOk(organizations: seq<Organization>, issued: set<string>)
  {
    forall o :: o in organizations ==> o.id in issued
  }

  /** The role table is the seed. */
  ghost predicate RolesOk(roles: seq<Role>)
  {
    roles == SeedRoles(DefaultRoles)
  }

  /**
   * Staff rows name catalog roles (a foreign key), memberships are unique,
   * and a row's organisation id is one the generator has handed out.
   */
  ghost predicate StaffOk(staff: seq<Staff>, issued: set<string>)
  {
    && UniqueMembership(staff)
    && (forall s :: s in staff ==> IsRole(s.roleId))
    && (forall s :: s in staff ==> s.id in issued && s.organizationId in issued)
  }

  ghost predicate BlogsOk(blogs: seq<Blog>, issued: set<string>)
  {
    forall b :: b in blogs ==> b.id in issued
  }

  ghost predicate CommentsOk(comments: seq<Comment>, issued: set<string>)
  {
    forall c :: c in comments ==> c.id in issued
  }

  ghost predicate ReviewsOk(reviews: seq<Review>, issued: set<string>)
  {
    forall r :: r in reviews ==> r.id in issued
  }

  class Store {
    var users: seq<User>
    var organizations: seq<Organization>
    var roles: seq<Role>
    var staff: seq<Staff>
    var blogs: seq<Blog>
    var comments: seq<Comment>
    var reviews: seq<Review>

    /**
     * The table invariants: the role table is the seed; staff rows name
     * catalog roles; memberships and email addresses are unique; every
     * generated row id is one the generator has handed out (`issued`).
     */
    ghost predicate Valid(issued: set<string>)
      reads this
    {
      && UsersOk(users, issued)
      && OrganizationsOk(organizations, issued)
      && RolesOk(roles)
      && StaffOk(staff, issued)
      && BlogsOk(blogs, issued)
      && CommentsOk(comments, issued)
      && ReviewsOk(reviews, issued)
    }

    /** An empty database whose role table has been seeded. */
    constructor ()
      ensures Valid({})
      ensures roles == SeedRoles(DefaultRoles)
      ensures users == [] && organizations == [] && staff == []
      ensures blogs == [] && comments == [] && reviews == []
    {
      users := [];
      organizations := [];
      roles := SeedRoles(DefaultRoles);
      staff := [];
      blogs := [];
      comments := [];
      reviews := [];
    }

    /** `user.create`: append a row whose id was handed out and whose email is new. */
    method InsertUser(u: User, ghost issued: set<string>)
      requires Valid(issued) && u.id in issued
      requires forall x :: x in users ==> x.email != u.email
      modifies this`users
      ensures Valid(issued) && users == old(users) + [u]
    {
      UsersAppend(users, u, issued, issued);
      users := users + [u];
    }

    /** `user.update`: rewrite row `i`, keeping its id and email. */
    method ReplaceUser(i: nat, v: User, ghost issued: set<string>)
      requires Valid(issued) && i < |users|
      requires v.id == users[i].id && v.email == users[i].email
      modifies this`users
      ensures Valid(issued) && users == old(users)[i := v]
    {
      UsersReplace(users, i, v, issued);
      users := users[i := v];
    }

    /** `organization.create`: append a row whose id was handed out. */
    method InsertOrganization(o: Organization, ghost issued: set<string>)
      requires Valid(issued) && o.id in issued
      modifies this`organizations
      ensures Valid(issued) && organizations == old(organizations) + [o]
    {
      organizations := organizations + [o];
    }

    /** `staff.create`: append a row for a catalog role and a pair with no row yet. */
    method InsertStaff(s: Staff, ghost issued: set<string>)
      requires Valid(issued) && s.id in issued && s.organizationId in issued && IsRole(s.roleId)
      requires forall x :: x in staff ==> !(x.userId == s.userId && x.organizationId == s.organizationId)
      modifies this`staff
      ensures Valid(issued) && staff == old(staff) + [s]
    {
      StaffAppend(staff, s, issued);
      staff := staff + [s];
    }

    /** `blog.create`: append a row whose id was handed out. */
    method InsertBlog(b: Blog, ghost issued: set<string>)
      requires Valid(issued) && b.id in issued
      modifies this`blogs
      ensures Valid(issued) && blogs == old(blogs) + [b]
    {
      blogs := blogs + [b];
    }

    /** `blog.update`: rewrite row `i`, keeping its id. */
    method ReplaceBlog(i: nat, v: Blog, ghost issued: set<string>)
      requires Valid(issued) && i < |blogs| && v.id == blogs[i].id
      modifies this`blogs
      ensures Valid(issued) && blogs == old(blogs)[i := v]
    {
      BlogsReplace(blogs, i, v, issued);
      blogs := blogs[i := v];
    }

    /** `comment.create`: append a row whose id was handed out. */
    method InsertComment(c: Comment, ghost issued: set<string>)
      requires Valid(issued) && c.id in issued
      modifies this`comments
      ensures Valid(issued) && comments == old(comments) + [c]
    {
      comments := comments + [c];
    }

    /** `review.create`: append a row whose id was handed out. */
    method InsertReview(r: Review, ghost issued: set<string>)
      requires Valid(issued) && r.id in issued
      modifies this`reviews
      ensures Valid(issued) && reviews == old(reviews) + [r]
    {
      reviews := reviews + [r];
    }

    /** `RoleService.Get`: the role row whose id is `id`. */
    function RoleById(id: string): (r: Option<Role>)
      reads this`roles
      ensures r.Some? ==> r.value in roles && r.value.id == id
      ensures r.None? ==> forall x :: x in roles ==> x.id != id
    {
      match FindFirst(roles, (x: Role) => x.id == id)
      case Some(i) => Some(roles[i])
      case None => None
    }

    /** `UserService.Get`: the first user whose id or email is `identifier`. */
    function UserByIdOrEmail(identifier: string): (r: Option<User>)
      reads this`users
      ensures r.Some? ==> r.value in users && (r.value.id == identifier || r.value.email == identifier)
      ensures r.None? ==> forall u :: u in users ==> u.id != identifier && u.email != identifier
    {
      FindUser(users, identifier)
    }

    /** The position of the user row `update where id` addresses. */
    function UserIndex(id: string): (r: Option<nat>)
      reads this`users
      ensures r.Some? ==> r.value < |users| && users[r.value].id == id
      ensures r.Some? ==> forall j :: 0 <= j < r.value ==> users[j].id != id
      ensures r.None? ==> forall u :: u in users ==> u.id != id
    {
      UserPosition(users, id)
    }

    /** `OrganizationService.Get`: the organisation with id `id`, deleted or not. */
    function OrganizationById(id: string): (r: Option<Organization>)
      reads this`organizations
      ensures r.Some? ==> r.value in organizations && r.value.id == id
      ensures r.None? ==> forall o :: o in organizations ==> o.id != id
    {
      match FindFirst(organizations, (o: Organization) => o.id == id)
      case Some(i) => Some(organizations[i])
      case None => None
    }

    /** `StaffService.Get`: the staff row with id `id`. */
    function StaffById(id: string): (r: Option<Staff>)
      reads this`staff
      ensures r.Some? ==> r.value in staff && r.value.id == id
      ensures r.None? ==> forall s :: s in staff ==> s.id != id
    {
      match FindFirst(staff, (s: Staff) => s.id == id)
      case Some(i) => Some(staff[i])
      case None => None
    }

    /** The staff row of `userId` in `organizationId`, whatever its role or deleted flag. */
    function Membership(userId: string, organizationId: string): (r: Option<Staff>)
      reads this`staff
      ensures r.Some? ==> r.value in staff && r.value.userId == userId && r.value.organizationId == organizationId
      ensures r.None? ==> forall s :: s in staff ==> !(s.userId == userId && s.organizationId == organizationId)
    {
      MemberRow(staff, userId, organizationId)
    }

    /** `BlogService.Get`: the blog with id `id`. */
    function BlogById(id: string): (r: Option<Blog>)
      reads this`blogs
      ensures r.Some? ==> r.value in blogs && r.value.id == id
      ensures r.None? ==> forall b :: b in blogs ==> b.id != id
    {
      FindBlog(blogs, id)
    }

    /** The position of the blog row `update where id` addresses. */
    function BlogIndex(id: string): (r: Option<nat>)
      reads this`blogs
      ensures r.Some? ==> r.value < |blogs| && blogs[r.value].id == id
      ensures r.Some? ==> forall j :: 0 <= j < r.value ==> blogs[j].id != id
      ensures r.None? ==> forall b :: b in blogs ==> b.id != id
    {
      BlogPosition(blogs, id)
    }
  }

  /** Handing out more ids keeps every table valid. */
  lemma ValidGrows(db: Store, issued: set<string>, issued': set<string>)
    requires db.Valid(issued) && issued <= issued'
    ensures db.Valid(issued')
  {
  }

  /** Rewriting a user row without touching its id or email keeps the user table valid. */
  lemma UsersReplace(users: seq<User>, i: nat, v: User, issued: set<string>)
    requires UsersOk(users, issued) && i < |users|
    requires v.id == users[i].id && v.email == users[i].email
    ensures UsersOk(users[i := v], issued)
  {
    var after := users[i := v];
    assert forall k :: 0 <= k < |after| ==> after[k].email == users[k].email && after[k].id == users[k].id;
    forall u | u in after ensures u.id in issued {
      var k :| 0 <= k < |after| && after[k] == u;
      assert users[k] in users;
    }
  }

  /** Rewriting a blog row without touching its id keeps the blog table valid. */
  lemma BlogsReplace(blogs: seq<Blog>, i: nat, v: Blog, issued: set<string>)
    requires BlogsOk(blogs, issued) && i < |blogs| && v.id == blogs[i].id
    ensures BlogsOk(blogs[i := v], issued)
  {
    var after := blogs[i := v];
    forall b | b in after ensures b.id in issued {
      var k :| 0 <= k < |after| && after[k] == b;
      assert blogs[k] in blogs;
    }
  }

  /** A staff row for a catalog role and a fresh (user, organisation) pair keeps the staff table valid. */
  lemma StaffAppend(staff: seq<Staff>, s: Staff, issued: set<string>)
    requires StaffOk(staff, issued) && s.id in issued && s.organizationId in issued && IsRole(s.roleId)
    requires forall x :: x in staff ==> !(x.userId == s.userId && x.organizationId == s.organizationId)
    ensures StaffOk(staff + [s], issued)
  {
    var all := staff + [s];
    forall i, j | 0 <= i < j < |all|
      ensures !(all[i].userId == all[j].userId && all[i].organizationId == all[j].organizationId)
    {
      assert all[i] == staff[i];
      if j < |staff| {
        assert all[j] == staff[j];
      }
    }
  }

  /** A user whose email no row has yet, with a handed-out id, keeps the user table valid. */
  lemma UsersAppend(users: seq<User>, u: User, issued: set<string>, issued': set<string>)
    requires UsersOk(users, issued) && issued <= issued' && u.id in issued'
    requires forall x :: x in users ==> x.email != u.email
    ensures UsersOk(users + [u], issued')
  {
    var all := users + [u];
    forall i, j | 0 <= i < j < |all| ensures all[i].email != all[j].email {
      assert all[i] == users[i];
      if j < |users| {
        assert all[j] == users[j];
      }
    }
  }

  /** The seeded role table holds exactly the catalog roles, each under its own name. */
  lemma SeededRolesAreCatalog(id: string)
    ensures (exists r :: r in SeedRoles(DefaultRoles) && r.id == id) <==> IsRole(id)
    ensures forall r :: r in SeedRoles(DefaultRoles) ==> r.name == r.id
  {
    var rs := SeedRoles(DefaultRoles);
    assert DefaultRoles == [RoleCreate(SuperAdmin), RoleCreate(Admin), RoleCreate(Reviewer), RoleCreate(Editor), RoleCreate(Roles.User)];
    assert rs == [Role(SuperAdmin, SuperAdmin), Role(Admin, Admin), Role(Reviewer, Reviewer), Role(Editor, Editor), Role(Roles.User, Roles.User)];
    if IsRole(id) {
      assert Role(id, id) in rs;
    }
  }

  /** On the seeded table, the role lookup finds exactly the catalog roles. */
  lemma SeededRoleLookup(db: Store, id: string)
    requires db.roles == SeedRoles(DefaultRoles)
    ensures db.RoleById(id).Some? <==> IsRole(id)
    ensures db.RoleById(id).Some? ==> db.RoleById(id).value == Role(id, id)
  {
    SeededRolesAreCatalog(id);
  }
}
