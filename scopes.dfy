/** The scope catalog (`<module>:<action>` strings) and the per-role grants. */
module Scopes {
  import opened Roles

  const UserAll: string := "user:all"
  const UserCreate: string := "user:create"
  const UserRead: string := "user:read"
  const UserUpdate: string := "user:update"
  const UserDelete: string := "user:delete"
  const UserComment: string := "user:comment"

  const OrganizationAll: string := "organization:all"
  const OrganizationCreate: string := "organization:create"
  const OrganizationRead: string := "organization:read"
  const OrganizationUpdate: string := "organization:update"
  const OrganizationDelete: string := "organization:delete"

  const StaffAll: string := "staff:all"
  const StaffCreate: string := "staff:create"
  const StaffRead: string := "staff:read"
  const StaffInvite: string := "staff:invite"
  const StaffUpdate: string := "staff:update"
  const StaffRemove: string := "staff:remove"

  const BlogAll: string := "blog:all"
  const BlogCreate: string := "blog:create"
  const BlogRead: string := "blog:read"
  const BlogUpdate: string := "blog:update"
  const BlogDelete: string := "blog:delete"
  const BlogComment: string := "blog:comment"
  const BlogReview: string := "blog:review"
  const BlogPublish: string := "blog:publish"
  const BlogUnpublish: string := "blog:unpublish"

  /** The grant that stands for every scope. */
  const Wildcard: string := "*"

  /** Action name to scope string, one map per module. */
  const UserScopes: map<string, string> := map[
    "all" := UserAll, "create" := UserCreate, "read" := UserRead,
    "update" := UserUpdate, "delete" := UserDelete, "comment" := UserComment]
  const OrganizationScopes: map<string, string> := map[
    "all" := OrganizationAll, "create" := OrganizationCreate, "read" := OrganizationRead,
    "update" := OrganizationUpdate, "delete" := OrganizationDelete]
  const StaffScopes: map<string, string> := map[
    "all" := StaffAll, "create" := StaffCreate, "read" := StaffRead,
    "invite" := StaffInvite, "update" := StaffUpdate, "remove" := StaffRemove]
  const BlogScopes: map<string, string> := map[
    "all" := BlogAll, "create" := BlogCreate, "read" := BlogRead, "update" := BlogUpdate,
    "delete" := BlogDelete, "comment" := BlogComment, "review" := BlogReview,
    "publish" := BlogPublish, "unpublish" := BlogUnpublish]

  /** Module name to (action name to scope string). */
  const Catalog: map<string, map<string, string>> := map[
    "user" := UserScopes, "organization" := OrganizationScopes, "staff" := StaffScopes, "blog" := BlogScopes]

  /** Role name to the list of scopes granted to it. */
  const Permissions: map<string, seq<string>> := map[
    SuperAdmin := [Wildcard],
    Admin := [UserRead, OrganizationRead, OrganizationUpdate, OrganizationDelete, StaffAll, BlogAll],
    Editor := [OrganizationRead, StaffRead, BlogCreate, BlogUpdate, BlogComment],
    Reviewer := [OrganizationRead, StaffRead, BlogRead, BlogReview, BlogComment],
    User := [UserAll, BlogComment, BlogRead]
  ]

  predicate InCatalog(s: string)
  {
    exists m, a :: m in Catalog && a in Catalog[m] && Catalog[m][a] == s
  }

  /** Every scope of the action map `c` is spelled `<m>:<action>`. */
  predicate Spelled(m: string, c: map<string, string>)
  {
    forall a :: a in c ==> c[a] == m + ":" + a
  }

  /** The scopes of module `m` are spelled `<m>:<action>`, one per action. */
  predicate ModuleNamed(m: string)
    requires m in Catalog
  {
    && ':' !in m
    && "all" in Catalog[m]
    && Spelled(m, Catalog[m])
  }

  lemma UserModuleSpelled()
    ensures Spelled("user", UserScopes)
  {
    forall a | a in UserScopes ensures UserScopes[a] == "user" + ":" + a {
      if a == "all" {
      } else if a == "create" {
      } else if a == "read" {
      } else if a == "update" {
      } else if a == "delete" {
      } else {
        assert a == "comment";
      }
    }
  }

  lemma OrganizationModuleSpelled()
    ensures Spelled("organization", OrganizationScopes)
  {
    forall a | a in OrganizationScopes ensures OrganizationScopes[a] == "organization" + ":" + a {
      if a == "all" {
      } else if a == "create" {
      } else if a == "read" {
      } else if a == "update" {
      } else {
        assert a == "delete";
      }
    }
  }

  lemma StaffModuleSpelled()
    ensures Spelled("staff", StaffScopes)
  {
    forall a | a in StaffScopes ensures StaffScopes[a] == "staff" + ":" + a {
      if a == "all" {
      } else if a == "create" {
      } else if a == "read" {
      } else if a == "invite" {
      } else if a == "update" {
      } else {
        assert a == "remove";
      }
    }
  }

  lemma BlogModuleSpelled()
    ensures Spelled("blog", BlogScopes)
  {
    forall a | a in BlogScopes ensures BlogScopes[a] == "blog" + ":" + a {
      if a == "all" {
      } else if a == "create" {
      } else if a == "read" {
      } else if a == "update" {
      } else if a == "delete" {
      } else if a == "comment" {
      } else if a == "review" {
      } else if a == "publish" {
      } else {
        assert a == "unpublish";
      }
    }
  }

  lemma UserModuleNamed()
    ensures ModuleNamed("user")
  {
    UserModuleSpelled();
    assert Catalog["user"] == UserScopes;
  }

  lemma OrganizationModuleNamed()
    ensures ModuleNamed("organization")
  {
    OrganizationModuleSpelled();
    assert Catalog["organization"] == OrganizationScopes;
  }

  lemma StaffModuleNamed()
    ensures ModuleNamed("staff")
  {
    StaffModuleSpelled();
    assert Catalog["staff"] == StaffScopes;
  }

  lemma BlogModuleNamed()
    ensures ModuleNamed("blog")
  {
    BlogModuleSpelled();
    assert Catalog["blog"] == BlogScopes;
  }

  /** Every catalog entry is spelled `<module>:<action>`, and every module has an `all` action. */
  lemma CatalogEntriesNamed()
    ensures Catalog.Keys == {"user", "organization", "staff", "blog"}
    ensures forall m :: m in Catalog ==> ModuleNamed(m)
  {
    UserModuleNamed();
    OrganizationModuleNamed();
    StaffModuleNamed();
    BlogModuleNamed();
  }

  /** Every catalog scope contains a colon. */
  lemma CatalogScopeHasColon(s: string)
    requires InCatalog(s)
    ensures ':' in s
  {
    var m, a :| m in Catalog && a in Catalog[m] && Catalog[m][a] == s;
    CatalogEntriesNamed();
    assert s[|m|] == ':';
  }

  /** Grants are given to exactly the catalog roles. */
  lemma PermissionsCoverEveryRole()
    ensures Permissions.Keys == set r | r in AllRoleList
  {
  }

  lemma AdminGrantsInCatalog()
    ensures forall g :: g in Permissions[Admin] ==> InCatalog(g)
  {
    assert Permissions[Admin] == [UserRead, OrganizationRead, OrganizationUpdate, OrganizationDelete, StaffAll, BlogAll];
    forall g | g in Permissions[Admin] ensures InCatalog(g) {
      if g == UserRead {
        assert Catalog["user"]["read"] == g;
      } else if g == OrganizationRead {
        assert Catalog["organization"]["read"] == g;
      } else if g == OrganizationUpdate {
        assert Catalog["organization"]["update"] == g;
      } else if g == OrganizationDelete {
        assert Catalog["organization"]["delete"] == g;
      } else if g == StaffAll {
        assert Catalog["staff"]["all"] == g;
      } else if g == BlogAll {
        assert Catalog["blog"]["all"] == g;
      }
    }
  }

  lemma EditorGrantsInCatalog()
    ensures forall g :: g in Permissions[Editor] ==> InCatalog(g)
  {
    assert Permissions[Editor] == [OrganizationRead, StaffRead, BlogCreate, BlogUpdate, BlogComment];
    forall g | g in Permissions[Editor] ensures InCatalog(g) {
      if g == OrganizationRead {
        assert Catalog["organization"]["read"] == g;
      } else if g == StaffRead {
        assert Catalog["staff"]["read"] == g;
      } else if g == BlogCreate {
        assert Catalog["blog"]["create"] == g;
      } else if g == BlogUpdate {
        assert Catalog["blog"]["update"] == g;
      } else if g == BlogComment {
        assert Catalog["blog"]["comment"] == g;
      }
    }
  }

  lemma ReviewerGrantsInCatalog()
    ensures forall g :: g in Permissions[Reviewer] ==> InCatalog(g)
  {
    assert Permissions[Reviewer] == [OrganizationRead, StaffRead, BlogRead, BlogReview, BlogComment];
    forall g | g in Permissions[Reviewer] ensures InCatalog(g) {
      if g == OrganizationRead {
        assert Catalog["organization"]["read"] == g;
      } else if g == StaffRead {
        assert Catalog["staff"]["read"] == g;
      } else if g == BlogRead {
        assert Catalog["blog"]["read"] == g;
      } else if g == BlogReview {
        assert Catalog["blog"]["review"] == g;
      } else if g == BlogComment {
        assert Catalog["blog"]["comment"] == g;
      }
    }
  }

  lemma UserGrantsInCatalog()
    ensures forall g :: g in Permissions[User] ==> InCatalog(g)
  {
    assert Permissions[User] == [UserAll, BlogComment, BlogRead];
    forall g | g in Permissions[User] ensures InCatalog(g) {
      if g == UserAll {
        assert Catalog["user"]["all"] == g;
      } else if g == BlogComment {
        assert Catalog["blog"]["comment"] == g;
      } else if g == BlogRead {
        assert Catalog["blog"]["read"] == g;
      }
    }
  }

  /** Every grant is the wildcard or a scope of the catalog. */
  lemma GrantsAreCatalogScopes()
    ensures forall r, g :: r in Permissions && g in Permissions[r] ==> g == Wildcard || InCatalog(g)
  {
    AdminGrantsInCatalog();
    EditorGrantsInCatalog();
    ReviewerGrantsInCatalog();
    UserGrantsInCatalog();
    assert Permissions[SuperAdmin] == [Wildcard];
  }

  /** Only super_admin holds the wildcard. */
  lemma WildcardOnlySuperAdmin()
    ensures forall r :: r in Permissions && Wildcard in Permissions[r] <==> r == SuperAdmin
  {
  }

  /** Each scope constant is its module key, a colon and its action key. */
  lemma UserScopeSpelling()
    ensures UserAll == "user" + ":" + "all" && UserCreate == "user" + ":" + "create"
    ensures UserRead == "user" + ":" + "read" && UserUpdate == "user" + ":" + "update"
    ensures UserDelete == "user" + ":" + "delete" && UserComment == "user" + ":" + "comment"
  {
    UserModuleSpelled();
    assert UserScopes["all"] == UserAll && UserScopes["create"] == UserCreate;
    assert UserScopes["read"] == UserRead && UserScopes["update"] == UserUpdate;
    assert UserScopes["delete"] == UserDelete && UserScopes["comment"] == UserComment;
  }

  lemma OrganizationScopeSpelling()
    ensures OrganizationAll == "organization" + ":" + "all"
    ensures OrganizationCreate == "organization" + ":" + "create"
    ensures OrganizationRead == "organization" + ":" + "read"
    ensures OrganizationUpdate == "organization" + ":" + "update"
    ensures OrganizationDelete == "organization" + ":" + "delete"
  {
    OrganizationModuleSpelled();
    assert OrganizationScopes["all"] == OrganizationAll && OrganizationScopes["create"] == OrganizationCreate;
    assert OrganizationScopes["read"] == OrganizationRead && OrganizationScopes["update"] == OrganizationUpdate;
    assert OrganizationScopes["delete"] == OrganizationDelete;
  }

  lemma StaffScopeSpelling()
    ensures StaffAll == "staff" + ":" + "all" && StaffCreate == "staff" + ":" + "create"
    ensures StaffRead == "staff" + ":" + "read" && StaffInvite == "staff" + ":" + "invite"
    ensures StaffUpdate == "staff" + ":" + "update" && StaffRemove == "staff" + ":" + "remove"
  {
    StaffModuleSpelled();
    assert StaffScopes["all"] == StaffAll && StaffScopes["create"] == StaffCreate;
    assert StaffScopes["read"] == StaffRead && StaffScopes["invite"] == StaffInvite;
    assert StaffScopes["update"] == StaffUpdate && StaffScopes["remove"] == StaffRemove;
  }

  lemma BlogScopeSpelling()
    ensures BlogAll == "blog" + ":" + "all" && BlogCreate == "blog" + ":" + "create"
    ensures BlogRead == "blog" + ":" + "read" && BlogUpdate == "blog" + ":" + "update"
    ensures BlogDelete == "blog" + ":" + "delete" && BlogComment == "blog" + ":" + "comment"
    ensures BlogReview == "blog" + ":" + "review" && BlogPublish == "blog" + ":" + "publish"
    ensures BlogUnpublish == "blog" + ":" + "unpublish"
  {
    BlogModuleSpelled();
    assert BlogScopes["all"] == BlogAll && BlogScopes["create"] == BlogCreate;
    assert BlogScopes["read"] == BlogRead && BlogScopes["update"] == BlogUpdate;
    assert BlogScopes["delete"] == BlogDelete && BlogScopes["comment"] == BlogComment;
    assert BlogScopes["review"] == BlogReview && BlogScopes["publish"] == BlogPublish;
    assert BlogScopes["unpublish"] == BlogUnpublish;
  }

  lemma ScopeSpelling()
    ensures UserAll == "user" + ":" + "all" && UserRead == "user" + ":" + "read"
    ensures OrganizationRead == "organization" + ":" + "read"
    ensures OrganizationUpdate == "organization" + ":" + "update"
    ensures OrganizationDelete == "organization" + ":" + "delete"
    ensures StaffAll == "staff" + ":" + "all" && StaffRead == "staff" + ":" + "read"
    ensures BlogAll == "blog" + ":" + "all" && BlogCreate == "blog" + ":" + "create"
    ensures BlogRead == "blog" + ":" + "read" && BlogUpdate == "blog" + ":" + "update"
    ensures BlogComment == "blog" + ":" + "comment" && BlogReview == "blog" + ":" + "review"
    ensures BlogPublish == "blog" + ":" + "publish" && BlogUnpublish == "blog" + ":" + "unpublish"
    ensures BlogDelete == "blog" + ":" + "delete"
  {
    UserScopeSpelling();
    OrganizationScopeSpelling();
    StaffScopeSpelling();
    BlogScopeSpelling();
  }

  /** No role lists `user:comment`; super_admin reaches it only through the wildcard. */
  lemma UserCommentNeverListed()
    ensures forall r :: r in Permissions ==> UserComment !in Permissions[r]
  {
    assert Permissions.Keys == {SuperAdmin, Admin, Editor, Reviewer, User};
    forall r | r in Permissions ensures UserComment !in Permissions[r] {
      if r == SuperAdmin {
      } else if r == Admin {
      } else if r == Editor {
      } else if r == Reviewer {
      } else {
        assert r == User;
      }
    }
  }
}
