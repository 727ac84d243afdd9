/** `verify` and `resend` of app/Http/Controllers/Auth/TwoFactorController.php
    as transitions of one identity's gate. The mail queue is a `mailQueued`
    flag and `rand(100000, 999999)` is the `newCode` parameter. */
module TwoFactorController {
  import opened Text
  import opened RateLimiting
  import opened TwoFactorState

  /** `tooManyAttempts($key, 5)` and `hit($key, 60)` on the verify counter. */
  const VerifyMaxAttempts: nat := 5
  const VerifyDecay: nat := 60

  /** `tooManyAttempts($key, 3)` and `hit($key, 300)` on the resend counter. */
  const ResendMaxAttempts: nat := 3
  const ResendDecay: nat := 300

  datatype VerifyResponse =
    | InvalidInput     // `required|digits:6` failed
    | Throttled        // too many attempts; the request is refused
    | LoginFirst       // no authenticated user
    | Verified         // redirect to the dashboard
    | Rejected         // "Invalid or expired verification code." and logout

  datatype ResendResponse =
    | ResendThrottled  // "Too many resend attempts."
    | ResendLoginFirst // no authenticated user
    | MailFailed       // queueing the mail threw; the new code is already saved
    | CodeResent       // "New verification code sent to your email!"

  /** `digits:6`: exactly six decimal digits. */
  predicate SixDigits(s: string) {
    |s| == 6 && AllDigits(s)
  }

  /** The success test: a stored code, loosely equal (`==`, numerically) to
      the submitted one, and `now()->lessThan($expiresAt)`. */
  predicate Accepts(code: TwoFactorCode, submitted: string, now: int)
    requires SixDigits(submitted)
  {
    HasCode(code) && code.code == ParseDigits(submitted) && now < code.expiresAt
  }

  /** `verify`: validation, then the throttle, then the user check, then the
      comparison; success clears the counter and the code, failure adds one
      hit and logs out. */
  function VerifyStep(g: Gate, ip: string, submitted: string, now: int): Step<VerifyResponse> {
    var key := VerifyKey(ip);
    if !SixDigits(submitted) then Step(g, InvalidInput)
    else if TooMany(g.limits, key, VerifyMaxAttempts, now) then Step(g, Throttled)
    else if !g.signedIn then Step(g, LoginFirst)
    else if Accepts(g.code, submitted, now) then Step(Gate(NoCode, true, ClearKey(g.limits, key)), Verified)
    else Step(Gate(g.code, false, HitKey(g.limits, key, VerifyDecay, now)), Rejected)
  }

  /** `resend`: the throttle, then the user check; then a fresh code that
      overwrites the old one, the mail, and one hit on the resend counter. */
  function ResendStep(g: Gate, ip: string, newCode: nat, mailQueued: bool, now: int): Step<ResendResponse> {
    var key := ResendKey(ip);
    if TooMany(g.limits, key, ResendMaxAttempts, now) then Step(g, ResendThrottled)
    else if !g.signedIn then Step(g, ResendLoginFirst)
    else if !mailQueued then Step(Gate(Pending(newCode, now + CodeLifetime), true, g.limits), MailFailed)
    else Step(Gate(Pending(newCode, now + CodeLifetime), true, HitKey(g.limits, key, ResendDecay, now)), CodeResent)
  }

  method Verify(user: User, session: Session, limiter: RateLimiter, ip: string, submitted: string, now: int)
    returns (response: VerifyResponse)
    modifies user, session, limiter
    ensures var step := VerifyStep(old(Snapshot(user, session, limiter)), ip, submitted, now);
            Snapshot(user, session, limiter) == step.gate && response == step.response
    ensures session.id == old(session.id) && session.csrfToken == old(session.csrfToken)
  {
    if !(|submitted| == 6 && AllDigits(submitted)) {
      return InvalidInput;
    }
    var key := VerifyKey(ip);
    if limiter.TooManyAttempts(key, VerifyMaxAttempts, now) {
      return Throttled;
    }
    if !session.signedIn {
      return LoginFirst;
    }
    var code := user.twoFactor;
    if code.Pending? && code.code != 0 && code.code == ParseDigits(submitted) && now < code.expiresAt {
      limiter.Clear(key);
      user.twoFactor := NoCode;
      return Verified;
    }
    limiter.Hit(key, VerifyDecay, now);
    session.Logout();
    return Rejected;
  }

  method Resend(user: User, session: Session, limiter: RateLimiter, ip: string,
                newCode: nat, mailQueued: bool, now: int)
    returns (response: ResendResponse)
    requires MinCode <= newCode <= MaxCode
    modifies user, limiter
    ensures var step := ResendStep(old(Snapshot(user, session, limiter)), ip, newCode, mailQueued, now);
            Snapshot(user, session, limiter) == step.gate && response == step.response
  {
    var key := ResendKey(ip);
    if limiter.TooManyAttempts(key, ResendMaxAttempts, now) {
      return ResendThrottled;
    }
    if !session.signedIn {
      return ResendLoginFirst;
    }
    user.twoFactor := Pending(newCode, now + CodeLifetime);
    if !mailQueued {
      return MailFailed;
    }
    limiter.Hit(key, ResendDecay, now);
    return CodeResent;
  }

  // ---------------------------------------------------------------------
  // Properties of verify

  /** For an issued code the loose numeric comparison is exact: a six-digit
      submission matches exactly when it is the code's decimal text. */
  lemma NumericMatchIsTextMatch(code: nat, submitted: string)
    requires MinCode <= code <= MaxCode
    requires SixDigits(submitted)
    ensures code == ParseDigits(submitted) <==> submitted == DecimalString(code)
  {
    SixDigitRendering(code);
    ParseDecimalString(code);
    if code == ParseDigits(submitted) {
      ParseDigitsInjective(submitted, DecimalString(code));
    }
  }

  /** A submission that is not exactly six digits is turned away before the
      throttle or the user is looked at, and nothing changes. */
  lemma MalformedCodeChangesNothing(g: Gate, ip: string, submitted: string, now: int)
    requires !SixDigits(submitted)
    ensures VerifyStep(g, ip, submitted, now) == Step(g, InvalidInput)
  {
  }

  /** Verification succeeds exactly when the input is six digits, the
      counter is below 5, the user is signed in, and the submitted text is
      the live stored code. */
  lemma VerifiedIff(g: Gate, ip: string, submitted: string, now: int)
    requires IssuedCode(g.code)
    ensures VerifyStep(g, ip, submitted, now).response == Verified
            <==> SixDigits(submitted) && Attempts(g.limits, VerifyKey(ip), now) < VerifyMaxAttempts
                 && g.signedIn && g.code.Pending? && submitted == DecimalString(g.code.code)
                 && now < g.code.expiresAt
  {
    if SixDigits(submitted) && g.code.Pending? {
      NumericMatchIsTextMatch(g.code.code, submitted);
    }
  }

  /** At 5 or more recorded attempts nothing is compared and nothing changes,
      even for the right code. */
  lemma ThrottledChangesNothing(g: Gate, ip: string, submitted: string, now: int)
    requires SixDigits(submitted)
    requires Attempts(g.limits, VerifyKey(ip), now) >= VerifyMaxAttempts
    ensures VerifyStep(g, ip, submitted, now) == Step(g, Throttled)
  {
  }

  /** Success clears the code and the verify counter, and keeps the session;
      replaying the same code afterwards is rejected. */
  lemma SuccessIsOneTime(g: Gate, ip: string, submitted: string, now: int, later: int)
    requires VerifyStep(g, ip, submitted, now).response == Verified
    ensures var after := VerifyStep(g, ip, submitted, now).gate;
            after.code == NoCode && after.signedIn
            && Attempts(after.limits, VerifyKey(ip), now) == 0
            && VerifyStep(after, ip, submitted, later).response == Rejected
  {
  }

  /** A failure leaves the stored code alone, logs out, and adds exactly one
      hit to this address's verify counter and nothing to any other key. */
  lemma FailureCountsOnce(g: Gate, ip: string, submitted: string, now: int)
    requires VerifyStep(g, ip, submitted, now).response == Rejected
    ensures var after := VerifyStep(g, ip, submitted, now).gate;
            after.code == g.code && !after.signedIn
            && Attempts(after.limits, VerifyKey(ip), now) == Attempts(g.limits, VerifyKey(ip), now) + 1
            && forall k :: k != VerifyKey(ip) ==> Attempts(after.limits, k, now) == Attempts(g.limits, k, now)
  {
  }

  /** A verify request never issues a code: afterwards the code is the old
      one or none. */
  lemma VerifyNeverIssues(g: Gate, ip: string, submitted: string, now: int)
    ensures var c := VerifyStep(g, ip, submitted, now).gate.code;
            c == g.code || c == NoCode
  {
  }

  // ---------------------------------------------------------------------
  // Properties of resend

  /** Throttled resends change nothing. */
  lemma ResendThrottledChangesNothing(g: Gate, ip: string, newCode: nat, mailQueued: bool, now: int)
    requires Attempts(g.limits, ResendKey(ip), now) >= ResendMaxAttempts
    ensures ResendStep(g, ip, newCode, mailQueued, now) == Step(g, ResendThrottled)
  {
  }

  /** A resend that gets past the throttle and the user check overwrites the
      code with `newCode` valid for ten minutes and, once the mail is queued,
      adds exactly one hit to the resend counter only. */
  lemma ResendOverwrites(g: Gate, ip: string, newCode: nat, mailQueued: bool, now: int)
    requires Attempts(g.limits, ResendKey(ip), now) < ResendMaxAttempts && g.signedIn
    ensures var after := ResendStep(g, ip, newCode, mailQueued, now).gate;
            after.code == Pending(newCode, now + CodeLifetime) && after.signedIn
            && Attempts(after.limits, ResendKey(ip), now)
               == Attempts(g.limits, ResendKey(ip), now) + (if mailQueued then 1 else 0)
            && Attempts(after.limits, VerifyKey(ip), now) == Attempts(g.limits, VerifyKey(ip), now)
  {
    KeysNeverShared(ip, ip);
  }

  /** After a resend, a code issued earlier verifies only if the new random
      code happens to be the same number. */
  lemma ResendInvalidatesOldCode(g: Gate, ip: string, oldCode: nat, newCode: nat, mailQueued: bool,
                                 now: int, later: int)
    requires MinCode <= oldCode <= MaxCode && MinCode <= newCode <= MaxCode
    requires Attempts(g.limits, ResendKey(ip), now) < ResendMaxAttempts && g.signedIn
    requires VerifyStep(ResendStep(g, ip, newCode, mailQueued, now).gate, ip, DecimalString(oldCode), later).response
             == Verified
    ensures oldCode == newCode
  {
    SixDigitRendering(oldCode);
    ParseDecimalString(oldCode);
  }
}
