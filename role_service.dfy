/** The scope matcher: may a role perform a scope? */
module RoleService {
  import opened Text
  import opened Roles
  import opened Scopes

  /** The module of a scope: the text before its first ':', or all of it when it has none. */
  function ModuleOf(scope: string): (m: string)
    ensures ':' !in m
    ensures ':' !in scope ==> m == scope
    ensures ':' in scope ==> |m| < |scope| && scope[..|m| + 1] == m + ":"
  {
    UpToFirst(scope, ':')
  }

  /**
   * True when `role` is a catalog role whose grant list holds the scope
   * itself, the scope's module with action `all`, or the wildcard.
   */
  function HasScope(role: string, scope: string): (b: bool)
    ensures b ==> IsRole(role)
    ensures !IsRole(role) ==> !b
    ensures IsRole(role) && Wildcard in Permissions[role] ==> b
    ensures IsRole(role) && scope in Permissions[role] ==> b
  {
    if role !in AllRoleList then false
    else if role in Permissions then
      var grants := Permissions[role];
      scope in grants || ModuleOf(scope) + ":all" in grants || Wildcard in grants
    else false
  }

  /** The module of `<m>:<a>` is `m` whenever `m` holds no colon. */
  lemma {:induction false} ModuleOfJoin(m: string, a: string)
    requires ':' !in m
    ensures ModuleOf(m + ":" + a) == m
    decreases |m|
  {
    var s := m + ":" + a;
    if m == [] {
      assert s[0] == ':';
    } else {
      assert s[0] == m[0];
      assert s[1..] == m[1..] + ":" + a;
      ModuleOfJoin(m[1..], a);
      assert m == [m[0]] + m[1..];
    }
  }

  /** `<module>:<action>` determines its module and action. */
  lemma JoinInjective(m1: string, a1: string, m2: string, a2: string)
    requires ':' !in m1 && ':' !in m2
    ensures m1 + ":" + a1 == m2 + ":" + a2 <==> m1 == m2 && a1 == a2
  {
    if m1 + ":" + a1 == m2 + ":" + a2 {
      ModuleOfJoin(m1, a1);
      ModuleOfJoin(m2, a2);
      assert a1 == (m1 + ":" + a1)[|m1| + 1..];
      assert a2 == (m2 + ":" + a2)[|m2| + 1..];
    }
  }

  /** Out-of-catalog role names, such as "viewer" and "guest", hold no scope. */
  lemma OutOfCatalogRolesRejected(role: string, scope: string)
    requires !IsRole(role)
    ensures !HasScope(role, scope)
  {
  }

  lemma RoleNameOutsiders(scope: string)
    ensures !HasScope(RoleName["Viewer"], scope) && !HasScope(RoleName["Guest"], scope)
  {
    RoleNameTargets();
  }

  /** super_admin holds every scope string. */
  lemma SuperAdminHasEveryScope(scope: string)
    ensures HasScope(SuperAdmin, scope)
  {
  }

  /** A listed grant is always held by its role. */
  lemma ListedGrantHeld(role: string, scope: string)
    requires IsRole(role) && scope in Permissions[role]
    ensures HasScope(role, scope)
  {
  }

  /** admin: all of staff and blog, even undeclared actions; read on user; read/update/delete on organization. */
  lemma {:induction false} AdminScopes(m: string, a: string)
    requires ':' !in m
    ensures HasScope(Admin, m + ":" + a) <==>
      m == "staff" || m == "blog" ||
      (m, a) in {("user", "read"), ("organization", "read"), ("organization", "update"), ("organization", "delete")}
  {
    ScopeSpelling();
    ModuleOfJoin(m, a);
    assert m + ":all" == m + ":" + "all";
    JoinInjective(m, a, "user", "read");
    JoinInjective(m, a, "organization", "read");
    JoinInjective(m, a, "organization", "update");
    JoinInjective(m, a, "organization", "delete");
    JoinInjective(m, a, "staff", "all");
    JoinInjective(m, a, "blog", "all");
    JoinInjective(m, "all", "user", "read");
    JoinInjective(m, "all", "organization", "read");
    JoinInjective(m, "all", "organization", "update");
    JoinInjective(m, "all", "organization", "delete");
    JoinInjective(m, "all", "staff", "all");
    JoinInjective(m, "all", "blog", "all");
  }

  /** editor: create/update/comment on blog, plus read on organization and staff; nothing else. */
  lemma {:induction false} EditorScopes(m: string, a: string)
    requires ':' !in m
    ensures HasScope(Editor, m + ":" + a) <==>
      (m, a) in {("organization", "read"), ("staff", "read"), ("blog", "create"), ("blog", "update"), ("blog", "comment")}
  {
    ScopeSpelling();
    ModuleOfJoin(m, a);
    assert m + ":all" == m + ":" + "all";
    JoinInjective(m, a, "organization", "read");
    JoinInjective(m, a, "staff", "read");
    JoinInjective(m, a, "blog", "create");
    JoinInjective(m, a, "blog", "update");
    JoinInjective(m, a, "blog", "comment");
    JoinInjective(m, "all", "organization", "read");
    JoinInjective(m, "all", "staff", "read");
    JoinInjective(m, "all", "blog", "create");
    JoinInjective(m, "all", "blog", "update");
    JoinInjective(m, "all", "blog", "comment");
  }

  /** reviewer: read/review/comment on blog, plus read on organization and staff; nothing else. */
  lemma {:induction false} ReviewerScopes(m: string, a: string)
    requires ':' !in m
    ensures HasScope(Reviewer, m + ":" + a) <==>
      (m, a) in {("organization", "read"), ("staff", "read"), ("blog", "read"), ("blog", "review"), ("blog", "comment")}
  {
    ScopeSpelling();
    ModuleOfJoin(m, a);
    assert m + ":all" == m + ":" + "all";
    JoinInjective(m, a, "organization", "read");
    JoinInjective(m, a, "staff", "read");
    JoinInjective(m, a, "blog", "read");
    JoinInjective(m, a, "blog", "review");
    JoinInjective(m, a, "blog", "comment");
    JoinInjective(m, "all", "organization", "read");
    JoinInjective(m, "all", "staff", "read");
    JoinInjective(m, "all", "blog", "read");
    JoinInjective(m, "all", "blog", "review");
    JoinInjective(m, "all", "blog", "comment");
  }

  /** user: every user scope, plus comment and read on blog; nothing else. */
  lemma {:induction false} UserScopes(m: string, a: string)
    requires ':' !in m
    ensures HasScope(User, m + ":" + a) <==>
      m == "user" || (m, a) in {("blog", "comment"), ("blog", "read")}
  {
    ScopeSpelling();
    ModuleOfJoin(m, a);
    assert m + ":all" == m + ":" + "all";
    JoinInjective(m, a, "user", "all");
    JoinInjective(m, a, "blog", "comment");
    JoinInjective(m, a, "blog", "read");
    JoinInjective(m, "all", "user", "all");
    JoinInjective(m, "all", "blog", "comment");
    JoinInjective(m, "all", "blog", "read");
  }

  /**
   * A scope without a colon is its own module, so it matches through the
   * `<module>:all` grant: admin holds the bare scope "blog", editor does not.
   */
  lemma BareModuleScope(role: string, m: string)
    requires ':' !in m
    ensures HasScope(role, m) <==> IsRole(role) && (Wildcard in Permissions[role] || m + ":all" in Permissions[role])
  {
    if IsRole(role) && m in Permissions[role] && m != Wildcard {
      GrantsAreCatalogScopes();
      CatalogScopeHasColon(m);
    }
  }

  lemma BareBlogScope()
    ensures HasScope(Admin, "blog") && !HasScope(Editor, "blog")
  {
    BareModuleScope(Admin, "blog");
    BareModuleScope(Editor, "blog");
    ScopeSpelling();
    assert "blog" + ":all" == BlogAll;
  }

  /** The two outcomes the blog tests hinge on. */
  lemma PublishAndReviewMatrix()
    ensures !HasScope(Editor, BlogPublish) && !HasScope(Editor, BlogReview)
    ensures HasScope(Reviewer, BlogReview) && !HasScope(Reviewer, BlogCreate)
    ensures HasScope(Admin, BlogPublish) && !HasScope(Reviewer, BlogPublish) && !HasScope(User, BlogPublish)
  {
    ScopeSpelling();
    EditorScopes("blog", "publish");
    EditorScopes("blog", "review");
    ReviewerScopes("blog", "review");
    ReviewerScopes("blog", "create");
    ReviewerScopes("blog", "publish");
    AdminScopes("blog", "publish");
    UserScopes("blog", "publish");
  }
}
