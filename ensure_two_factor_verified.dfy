/** The `2fa.verified` middleware
    (app/Http/Middleware/EnsureTwoFactorVerified.php): on every protected
    request it passes, redirects to the code form, or, once the code has
    expired, clears it and logs the user out. */
module EnsureTwoFactorVerified {
  import opened Wrappers
  import opened Text
  import opened RateLimiting
  import opened TwoFactorState

  datatype GuardResponse =
    | PassThrough       // `$next($request)`
    | RedirectToVerify  // redirect to `2fa.show`
    | ExpiredLogout     // "Verification code expired." and logout

  /** `routeIs('2fa.*') || routeIs('login') || routeIs('logout')`; an unnamed
      route matches none of them. */
  predicate ExemptRoute(route: Option<string>) {
    route.Some? && (StartsWith(route.value, "2fa.") || route.value == "login" || route.value == "logout")
  }

  function GuardStep(g: Gate, route: Option<string>, now: int): Step<GuardResponse> {
    if ExemptRoute(route) then Step(g, PassThrough)
    else if g.signedIn && HasCode(g.code) then
      if now < g.code.expiresAt then Step(g, RedirectToVerify)
      else Step(Gate(NoCode, false, g.limits), ExpiredLogout)
    else Step(g, PassThrough)
  }

  method Handle(user: User, session: Session, route: Option<string>, now: int)
    returns (response: GuardResponse)
    modifies user, session
    ensures var step := GuardStep(Gate(old(user.twoFactor), old(session.signedIn), map[]), route, now);
            user.twoFactor == step.gate.code && session.signedIn == step.gate.signedIn
            && response == step.response
    ensures session.id == old(session.id) && session.csrfToken == old(session.csrfToken)
  {
    if route.Some? && (StartsWith(route.value, "2fa.") || route.value == "login" || route.value == "logout") {
      return PassThrough;
    }
    var code := user.twoFactor;
    if session.signedIn && code.Pending? && code.code != 0 {
      if now < code.expiresAt {
        return RedirectToVerify;
      }
      user.twoFactor := NoCode;
      session.Logout();
      return ExpiredLogout;
    }
    return PassThrough;
  }

  /** Exempt routes pass and leave the user and the session untouched. */
  lemma ExemptRoutesPass(g: Gate, route: Option<string>, now: int)
    requires route == Some("login") || route == Some("logout") || (route.Some? && StartsWith(route.value, "2fa."))
    ensures GuardStep(g, route, now) == Step(g, PassThrough)
  {
  }

  /** The guard never issues a code and never touches the counters: the
      code afterwards is the old one or none. */
  lemma GuardNeverSetsCode(g: Gate, route: Option<string>, now: int)
    ensures var after := GuardStep(g, route, now).gate;
            (after.code == g.code || after.code == NoCode) && after.limits == g.limits
  {
  }

  /** On a protected route with a code pending, the guard redirects while the
      code is live and otherwise clears it and logs out. */
  lemma PendingCodeDecides(g: Gate, route: Option<string>, now: int)
    requires !ExemptRoute(route) && g.signedIn && HasCode(g.code)
    ensures now < g.code.expiresAt ==> GuardStep(g, route, now) == Step(g, RedirectToVerify)
    ensures now >= g.code.expiresAt ==> GuardStep(g, route, now) == Step(Gate(NoCode, false, g.limits), ExpiredLogout)
  {
  }

  /** Without a signed-in user or without a code every request passes. */
  lemma NothingPendingPasses(g: Gate, route: Option<string>, now: int)
    requires !g.signedIn || !HasCode(g.code)
    ensures GuardStep(g, route, now) == Step(g, PassThrough)
  {
  }
}
