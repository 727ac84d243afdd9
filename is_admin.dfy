/** The `admin` middleware (app/Http/Middleware/IsAdmin.php): a signed-in
    user with an administrator role passes; others are sent to the login
    page or refused. */
module IsAdmin {
  import opened Wrappers
  import opened Accounts

  datatype AdminResponse =
    | RedirectToLogin  // redirect('/login')
    | Forbidden        // abort(403)
    | PassThrough      // $next($request)

  /** The role list as written. */
  const AdminRolesAsWritten: set<string> := {"admin", "s"}

  /** The role list its comment and the seeded roles call for. */
  const AdminRoles: set<string> := {"admin", "super-admin"}

  function Gate(user: Option<Account>, roles: set<string>): AdminResponse {
    if user.None? then RedirectToLogin
    else if !HasAnyRole(user.value, roles) then Forbidden
    else PassThrough
  }

  /** `handle` as written. */
  function HandleAsWritten(user: Option<Account>): AdminResponse {
    Gate(user, AdminRolesAsWritten)
  }

  /** `handle` with the role list corrected. */
  function HandleIntended(user: Option<Account>): AdminResponse {
    Gate(user, AdminRoles)
  }

  /** As written: nobody signed out gets in, and a signed-in user passes
      exactly when holding `admin` or a role named `s`. */
  lemma HandleAsWrittenDecides(user: Option<Account>)
    ensures user.None? ==> HandleAsWritten(user) == RedirectToLogin
    ensures user.Some? ==> (HandleAsWritten(user) == PassThrough <==> "admin" in user.value.roles || "s" in user.value.roles)
    ensures user.Some? ==> (HandleAsWritten(user) == Forbidden <==> "admin" !in user.value.roles && "s" !in user.value.roles)
  {
    if user.Some? && "admin" in user.value.roles {
      assert "admin" in AdminRolesAsWritten;
    }
    if user.Some? && "s" in user.value.roles {
      assert "s" in AdminRolesAsWritten;
    }
  }

  /** As written, a seeded super-admin without the `admin` role is refused. */
  lemma SuperAdminRefusedAsWritten(id: int)
    ensures HandleAsWritten(Some(Seeded(id, {"super-admin"}))) == Forbidden
  {
    assert Seeded(id, {"super-admin"}).roles == {"super-admin"};
  }

  /** Corrected: nobody signed out gets in, and a signed-in user passes
      exactly when holding `admin` or `super-admin`. */
  lemma HandleAdmitsAdministrators(user: Option<Account>)
    ensures user.None? ==> HandleIntended(user) == RedirectToLogin
    ensures user.Some? ==> (HandleIntended(user) == PassThrough <==> "admin" in user.value.roles || "super-admin" in user.value.roles)
    ensures user.Some? ==> (HandleIntended(user) == Forbidden <==> "admin" !in user.value.roles && "super-admin" !in user.value.roles)
  {
    if user.Some? && "admin" in user.value.roles {
      assert "admin" in AdminRoles;
    }
    if user.Some? && "super-admin" in user.value.roles {
      assert "super-admin" in AdminRoles;
    }
  }

  /** The correction changes the answer only for users holding `super-admin`
      or `s` without `admin`; everyone else is treated the same. */
  lemma CorrectionOnlyAdmitsSuperAdmins(user: Option<Account>)
    requires user.Some? ==> "super-admin" !in user.value.roles && "s" !in user.value.roles
    ensures HandleAsWritten(user) == HandleIntended(user)
  {
    if user.Some? && HasAnyRole(user.value, AdminRolesAsWritten) {
      var r :| r in AdminRolesAsWritten && r in user.value.roles;
      assert r == "admin";
      assert "admin" in AdminRoles;
    }
    if user.Some? && HasAnyRole(user.value, AdminRoles) {
      var r :| r in AdminRoles && r in user.value.roles;
      assert r == "admin";
      assert "admin" in AdminRolesAsWritten;
    }
  }
}
