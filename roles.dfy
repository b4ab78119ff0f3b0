/** The role catalog: the five role names, the lookup tables and the seed rows. */
module Roles {

  const SuperAdmin: string := "super_admin"
  const Admin: string := "admin"
  const Editor: string := "editor"
  const Reviewer: string := "reviewer"
  const User: string := "user"

  /** Every role name the system knows, in catalog order. */
  const AllRoleList: seq<string> := [SuperAdmin, Admin, Editor, Reviewer, User]

  predicate IsRole(name: string)
  {
    name in AllRoleList
  }

  /** Role key to role name. */
  const RoleNameFromKey: map<string, string> :=
    map[SuperAdmin := SuperAdmin, Admin := Admin, Editor := Editor, Reviewer := Reviewer, User := User]

  /** Display label to role name; two of its targets are not catalog roles. */
  const RoleName: map<string, string> :=
    map["Super Admin" := SuperAdmin, "Admin" := Admin, "Viewer" := "viewer", "Editor" := Editor, "Guest" := "guest"]

  /** The payload that creates one role row. */
  datatype RoleCreate = RoleCreate(name: string)

  /** The rows the role table is seeded with, in seeding order. */
  const DefaultRoles: seq<RoleCreate> := [
    RoleCreate(RoleNameFromKey[SuperAdmin]),
    RoleCreate(RoleNameFromKey[Admin]),
    RoleCreate(RoleNameFromKey[Reviewer]),
    RoleCreate(RoleNameFromKey[Editor]),
    RoleCreate(RoleNameFromKey[User])
  ]

  /** The catalog has five pairwise distinct names. */
  lemma AllRolesDistinct()
    ensures |AllRoleList| == 5
    ensures forall i, j :: 0 <= i < j < |AllRoleList| ==> AllRoleList[i] != AllRoleList[j]
  {
  }

  /** The key table is the identity on exactly the catalog roles. */
  lemma RoleNameFromKeyIsIdentity()
    ensures RoleNameFromKey.Keys == set r | r in AllRoleList
    ensures forall k :: k in RoleNameFromKey ==> RoleNameFromKey[k] == k
  {
  }

  /** Seeding creates one row per catalog role and no other. */
  lemma DefaultRolesSeedCatalog()
    ensures |DefaultRoles| == |AllRoleList|
    ensures (set d | d in DefaultRoles :: d.name) == set r | r in AllRoleList
    ensures forall i, j :: 0 <= i < j < |DefaultRoles| ==> DefaultRoles[i].name != DefaultRoles[j].name
  {
    assert DefaultRoles == [RoleCreate(SuperAdmin), RoleCreate(Admin), RoleCreate(Reviewer), RoleCreate(Editor), RoleCreate(User)];
  }

  /** "Viewer" and "Guest" name roles outside the catalog; the rest land inside it. */
  lemma RoleNameTargets()
    ensures !IsRole(RoleName["Viewer"]) && !IsRole(RoleName["Guest"])
    ensures forall k :: k in RoleName && k != "Viewer" && k != "Guest" ==> IsRole(RoleName[k])
  {
  }
}
