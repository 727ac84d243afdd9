/** Users as the permission package sees them: an id, role names and the
    effective permission names (direct or through a role). The seeded roles
    of database/seeders/RolePermissionSeeder.php serve as fixtures. */
module Accounts {
  datatype Account = Account(id: int, roles: set<string>, permissions: set<string>)

  /** `$user->can($perm)` / `hasPermissionTo($perm)`. */
  predicate Can(u: Account, perm: string) {
    perm in u.permissions
  }

  /** `hasAnyRole($names)`. */
  predicate HasAnyRole(u: Account, names: set<string>) {
    exists r :: r in names && r in u.roles
  }

  const PostPermissions: set<string> := {"view posts", "create posts", "edit posts", "delete posts", "publish posts"}
  const CategoryPermissions: set<string> := {"view categories", "create categories", "edit categories", "delete categories"}
  const TagPermissions: set<string> := {"view tags", "create tags", "edit tags", "delete tags"}
  const CommentPermissions: set<string> := {"view comments", "approve comments", "delete comments"}
  const SystemPermissions: set<string> := {"view dashboard", "manage users"}

  const AllPermissions: set<string> :=
    PostPermissions + CategoryPermissions + TagPermissions + CommentPermissions + SystemPermissions

  /** The roles the seeder creates. */
  const SeededRoles: set<string> := {"super-admin", "admin", "editor", "moderator"}

  /** The permissions the seeder grants each role; unknown roles get none. */
  function RolePermissions(role: string): (perms: set<string>)
    ensures perms <= AllPermissions
    ensures role !in SeededRoles ==> perms == {}
  {
    if role == "super-admin" then AllPermissions
    else if role == "admin" then PostPermissions + CategoryPermissions + TagPermissions + CommentPermissions
                                 + {"view dashboard"}
    else if role == "editor" then
      {"view posts", "create posts", "edit posts", "view categories", "view tags", "view comments", "view dashboard"}
    else if role == "moderator" then
      {"view posts", "view categories", "view tags", "view comments", "approve comments", "delete comments",
       "view dashboard"}
    else {}
  }

  /** A user holding `roles` and no direct permissions: every permission of
      each role, nothing outside the seeded permissions, and nothing at all
      from roles the seeder does not create. */
  function Seeded(id: int, roles: set<string>): (u: Account)
    ensures u.id == id && u.roles == roles
    ensures forall r :: r in roles ==> RolePermissions(r) <= u.permissions
    ensures u.permissions <= AllPermissions
    ensures roles * SeededRoles == {} ==> u.permissions == {}
  {
    Account(id, roles, set p, r | r in roles && p in RolePermissions(r) :: p)
  }

  /** Every permission a seeded user holds comes from one of their roles. */
  lemma SeededPermissionHasRole(id: int, roles: set<string>, perm: string)
    requires Can(Seeded(id, roles), perm)
    ensures exists r :: r in roles && perm in RolePermissions(r)
  {
  }
}
