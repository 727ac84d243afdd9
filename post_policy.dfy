/** Who may do what with a post (app/Policies/PostPolicy.php). */
module PostPolicy {
  import opened Accounts
  import opened PostModel

  predicate ViewAny(u: Account) {
    Can(u, "view posts")
  }

  predicate View(u: Account, p: Post) {
    Can(u, "view posts")
  }

  predicate Create(u: Account) {
    Can(u, "create posts")
  }

  /** As written: holders of `delete posts`, or the owner (`===` on ids). */
  predicate Update(u: Account, p: Post) {
    Can(u, "delete posts") || u.id == p.userId
  }

  predicate Delete(u: Account, p: Post) {
    Can(u, "delete posts") || u.id == p.userId
  }

  predicate Publish(u: Account) {
    Can(u, "publish posts")
  }

  predicate Restore(u: Account, p: Post) {
    Can(u, "delete posts") || p.userId == u.id
  }

  predicate ForceDelete(u: Account, p: Post) {
    Can(u, "delete posts")
  }

  /** The rule the documentation of `update` states: holders of `edit posts`,
      or the owner. */
  predicate UpdateIntended(u: Account, p: Post) {
    Can(u, "edit posts") || u.id == p.userId
  }

  /** `update` and `delete` are the same rule, and `restore` too. */
  lemma UpdateDeleteRestoreAgree(u: Account, p: Post)
    ensures Update(u, p) <==> Delete(u, p)
    ensures Update(u, p) <==> Restore(u, p)
    ensures Update(u, p) <==> Can(u, "delete posts") || u.id == p.userId
  {
  }

  /** Whoever may delete a post for good may also restore, update and
      delete it. */
  lemma ForceDeleteIsStrongest(u: Account, p: Post)
    requires ForceDelete(u, p)
    ensures Restore(u, p) && Update(u, p) && Delete(u, p)
  {
  }

  /** Owning a post is not enough to delete it for good. */
  lemma OwnerNeedsPermissionToForceDelete(u: Account, p: Post)
    requires u.id == p.userId && !Can(u, "delete posts")
    ensures Update(u, p) && Delete(u, p) && Restore(u, p) && !ForceDelete(u, p)
  {
  }

  /** Seeded super-admins may do everything to any post. */
  lemma SuperAdminMayDoAll(id: int, p: Post)
    ensures var u := Seeded(id, {"super-admin"});
            ViewAny(u) && Create(u) && Update(u, p) && Publish(u) && ForceDelete(u, p)
  {
    var perms := RolePermissions("super-admin");
    assert "view posts" in perms && "create posts" in perms && "delete posts" in perms && "publish posts" in perms;
    assert "super-admin" in {"super-admin"};
  }

  /** Seeded admins may do everything to any post. */
  lemma AdminMayDoAll(id: int, p: Post)
    ensures var u := Seeded(id, {"admin"});
            ViewAny(u) && Create(u) && Update(u, p) && Publish(u) && ForceDelete(u, p)
  {
    var perms := RolePermissions("admin");
    assert "view posts" in perms && "create posts" in perms && "delete posts" in perms && "publish posts" in perms;
    assert "admin" in {"admin"};
  }

  /** Seeded moderators may view posts but not create, publish or delete
      them for good, and update only their own. */
  lemma ModeratorOnlyViews(id: int, p: Post)
    ensures var u := Seeded(id, {"moderator"});
            ViewAny(u) && !Create(u) && !Publish(u) && !ForceDelete(u, p) && (Update(u, p) <==> p.userId == id)
  {
    var perms := RolePermissions("moderator");
    assert "view posts" in perms;
    assert "create posts" !in perms && "publish posts" !in perms && "delete posts" !in perms;
    assert "moderator" in {"moderator"};
  }

  /** As written, a seeded editor, who holds `edit posts`, may not update a
      post written by someone else. */
  lemma EditorRefusedOthersPosts(id: int, p: Post)
    requires p.userId != id
    ensures Can(Seeded(id, {"editor"}), "edit posts")
    ensures !Update(Seeded(id, {"editor"}), p)
  {
    assert "editor" in {"editor"} && "edit posts" in RolePermissions("editor");
  }

  /** Under the documented rule a seeded editor may update any post. */
  lemma IntendedRuleAdmitsEditors(id: int, roles: set<string>, p: Post)
    requires "editor" in roles
    ensures UpdateIntended(Seeded(id, roles), p)
  {
    assert "edit posts" in RolePermissions("editor");
  }

  /** The documented rule takes no right away from a seeded user: every
      seeded role holding `delete posts` also holds `edit posts`. */
  lemma IntendedRuleKeepsRights(id: int, roles: set<string>, p: Post)
    ensures Update(Seeded(id, roles), p) ==> UpdateIntended(Seeded(id, roles), p)
  {
    var u := Seeded(id, roles);
    if Can(u, "delete posts") {
      SeededPermissionHasRole(id, roles, "delete posts");
      var r :| r in roles && "delete posts" in RolePermissions(r);
      DeleteImpliesEdit(r);
      assert RolePermissions(r) <= u.permissions;
    }
  }

  /** Every seeded role granting `delete posts` also grants `edit posts`. */
  lemma DeleteImpliesEdit(r: string)
    requires "delete posts" in RolePermissions(r)
    ensures "edit posts" in RolePermissions(r)
  {
  }
}
