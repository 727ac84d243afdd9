/** Login and logout (app/Http/Controllers/Auth/AuthenticatedSessionController.php).
    Password checking (`$request->authenticate()`) is the `authenticated`
    flag; `rand(100000, 999999)`, the new session id and CSRF token, and the
    outcome of queueing the mail are parameters. */
module AuthenticatedSessionController {
  import opened RateLimiting
  import opened TwoFactorState

  datatype LoginResponse =
    | LoginFailed           // `authenticate()` threw
    | MailError             // "Unable to send verification code."
    | RedirectToVerifyPage  // redirect to `2fa.show`

  /** `store`: after authentication a code valid for ten minutes overwrites
      any earlier one and is saved before the mail is attempted. */
  function LoginStep(g: Gate, authenticated: bool, newCode: nat, mailQueued: bool, now: int): Step<LoginResponse> {
    if !authenticated then Step(g, LoginFailed)
    else Step(Gate(Pending(newCode, now + CodeLifetime), true, g.limits),
              if mailQueued then RedirectToVerifyPage else MailError)
  }

  /** `destroy`: logout; the stored code is not touched. */
  function LogoutStep(g: Gate): Gate {
    Gate(g.code, false, g.limits)
  }

  method Store(user: User, session: Session, authenticated: bool, newSessionId: nat, newToken: nat,
               newCode: nat, mailQueued: bool, now: int)
    returns (response: LoginResponse)
    requires MinCode <= newCode <= MaxCode
    modifies user, session
    ensures var step := LoginStep(Gate(old(user.twoFactor), old(session.signedIn), map[]),
                                  authenticated, newCode, mailQueued, now);
            user.twoFactor == step.gate.code && session.signedIn == step.gate.signedIn
            && response == step.response
    ensures authenticated ==> session.id == newSessionId && session.csrfToken == newToken
    ensures !authenticated ==> session.id == old(session.id) && session.csrfToken == old(session.csrfToken)
  {
    if !authenticated {
      return LoginFailed;
    }
    session.signedIn := true;
    session.id := newSessionId;
    session.csrfToken := newToken;
    user.twoFactor := Pending(newCode, now + CodeLifetime);
    if !mailQueued {
      return MailError;
    }
    return RedirectToVerifyPage;
  }

  method Destroy(session: Session, newSessionId: nat, newToken: nat)
    modifies session
    ensures !session.signedIn && session.id == newSessionId && session.csrfToken == newToken
  {
    session.Logout();
    session.id := newSessionId;
    session.csrfToken := newToken;
  }

  /** A successful password check always leaves the user signed in with the
      new code pending for ten minutes, whether or not the mail went out, and
      leaves the counters alone. */
  lemma LoginIssuesCode(g: Gate, newCode: nat, mailQueued: bool, now: int)
    ensures var step := LoginStep(g, true, newCode, mailQueued, now);
            step.gate == Gate(Pending(newCode, now + CodeLifetime), true, g.limits)
            && (step.response == MailError <==> !mailQueued)
  {
  }

  /** Logging out keeps the stored code and the counters. */
  lemma LogoutKeepsCode(g: Gate)
    ensures LogoutStep(g).code == g.code && !LogoutStep(g).signedIn && LogoutStep(g).limits == g.limits
  {
  }
}
