/** The login → code → verify protocol across requests: concrete scenarios
    and invariants that hold over any sequence of requests from one
    identity. */
module TwoFactorProtocol {
  import opened Wrappers
  import opened Text
  import opened RateLimiting
  import opened TwoFactorState
  import opened TwoFactorController
  import opened EnsureTwoFactorVerified
  import opened AuthenticatedSessionController

  /** One request against the gate. */
  datatype Request =
    | LoginRequest(authenticated: bool, newCode: nat, mailQueued: bool, now: int)
    | VerifyRequest(ip: string, submitted: string, now: int)
    | ResendRequest(ip: string, newCode: nat, mailQueued: bool, now: int)
    | ProtectedRequest(route: Option<string>, now: int)
    | LogoutRequest

  function Apply(g: Gate, r: Request): Gate {
    match r
    case LoginRequest(a, c, m, now) => LoginStep(g, a, c, m, now).gate
    case VerifyRequest(ip, s, now) => VerifyStep(g, ip, s, now).gate
    case ResendRequest(ip, c, m, now) => ResendStep(g, ip, c, m, now).gate
    case ProtectedRequest(route, now) => GuardStep(g, route, now).gate
    case LogoutRequest => LogoutStep(g)
  }

  function Run(g: Gate, rs: seq<Request>): Gate
    decreases |rs|
  {
    if rs == [] then g else Run(Apply(g, rs[0]), rs[1..])
  }

  /** Every code a request may store is drawn from 100000..999999. */
  predicate WellDrawn(r: Request) {
    (r.LoginRequest? ==> MinCode <= r.newCode <= MaxCode)
    && (r.ResendRequest? ==> MinCode <= r.newCode <= MaxCode)
  }

  /** No verify counter ever records more than 5 failures in one window. */
  predicate VerifyCountersBounded(limits: Buckets) {
    forall k :: k in limits && StartsWith(k, "verify-2fa-") ==> limits[k].hits <= VerifyMaxAttempts
  }

  predicate GateInvariant(g: Gate) {
    IssuedCode(g.code) && VerifyCountersBounded(g.limits)
  }

  lemma VerifyKeyPrefix(ip: string)
    ensures StartsWith(VerifyKey(ip), "verify-2fa-")
  {
    assert VerifyKey(ip)[..|"verify-2fa-"|] == "verify-2fa-";
  }

  lemma ResendKeyNotVerify(ip: string)
    ensures !StartsWith(ResendKey(ip), "verify-2fa-")
  {
    assert ResendKey(ip)[0] == 'r';
  }

  /** A rejected verify hits only a counter that was below 5, so the bound
      survives it; a resend hits a key outside the verify family. */
  lemma StepKeepsInvariant(g: Gate, r: Request)
    requires GateInvariant(g) && WellDrawn(r)
    ensures GateInvariant(Apply(g, r))
  {
    match r
    case VerifyRequest(ip, s, now) =>
      var key := VerifyKey(ip);
      var step := VerifyStep(g, ip, s, now);
      if step.response == Rejected {
        assert Attempts(g.limits, key, now) < VerifyMaxAttempts;
        var after := step.gate.limits;
        forall k | k in after && StartsWith(k, "verify-2fa-")
          ensures after[k].hits <= VerifyMaxAttempts
        {
          if k != key {
            assert k in after - {key};
          }
        }
      } else if step.response == Verified {
        assert step.gate.limits == g.limits - {key};
      }
    case ResendRequest(ip, c, m, now) =>
      var key := ResendKey(ip);
      ResendKeyNotVerify(ip);
      var after := ResendStep(g, ip, c, m, now).gate.limits;
      forall k | k in after && StartsWith(k, "verify-2fa-")
        ensures after[k].hits <= VerifyMaxAttempts
      {
        assert k != key;
        assert k in after - {key};
      }
    case _ =>
  }

  /** Over any sequence of requests, stored codes stay six-digit draws and
      no address can get more than 5 failed guesses into one window. */
  lemma {:induction false} RunKeepsInvariant(g: Gate, rs: seq<Request>)
    requires GateInvariant(g)
    requires forall i :: 0 <= i < |rs| ==> WellDrawn(rs[i])
    ensures GateInvariant(Run(g, rs))
    decreases |rs|
  {
    if rs != [] {
      StepKeepsInvariant(g, rs[0]);
      assert forall i :: 0 <= i < |rs[1..]| ==> WellDrawn(rs[1..][i]) by {
        forall i | 0 <= i < |rs[1..]| ensures WellDrawn(rs[1..][i]) {
          assert rs[1..][i] == rs[i + 1];
        }
      }
      RunKeepsInvariant(Apply(g, rs[0]), rs[1..]);
    }
  }

  /** The first window's counter read at any time is at most 5. */
  lemma AttemptsBounded(g: Gate, ip: string, now: int)
    requires GateInvariant(g)
    ensures Attempts(g.limits, VerifyKey(ip), now) <= VerifyMaxAttempts
  {
    VerifyKeyPrefix(ip);
  }

  // ---------------------------------------------------------------------
  // The login → verify walk-through

  /** After a successful login, every protected request is redirected to the
      code form for as long as the code is live, whether or not the mail was
      sent. */
  lemma LoginThenProtectedRedirects(g: Gate, newCode: nat, mailQueued: bool, t0: int,
                                    route: Option<string>, t: int)
    requires MinCode <= newCode <= MaxCode
    requires !ExemptRoute(route) && t < t0 + CodeLifetime
    ensures GuardStep(LoginStep(g, true, newCode, mailQueued, t0).gate, route, t).response == RedirectToVerify
  {
  }

  /** A protected request made once the ten minutes have passed, without a
      verification, clears the code and logs the user out. */
  lemma LoginThenExpired(g: Gate, newCode: nat, mailQueued: bool, t0: int,
                         route: Option<string>, t: int)
    requires MinCode <= newCode <= MaxCode
    requires !ExemptRoute(route) && t >= t0 + CodeLifetime
    ensures var s := GuardStep(LoginStep(g, true, newCode, mailQueued, t0).gate, route, t);
            s.response == ExpiredLogout && s.gate.code == NoCode && !s.gate.signedIn
  {
  }

  /** The mailed code, typed in within ten minutes from an address with
      fewer than 5 failures in its window, verifies. */
  lemma LoginThenCorrectCodeVerifies(g: Gate, newCode: nat, mailQueued: bool, t0: int,
                                     ip: string, t: int)
    requires MinCode <= newCode <= MaxCode
    requires t < t0 + CodeLifetime
    requires Attempts(g.limits, VerifyKey(ip), t) < VerifyMaxAttempts
    ensures var s := VerifyStep(LoginStep(g, true, newCode, mailQueued, t0).gate, ip, DecimalString(newCode), t);
            s.response == Verified && s.gate.code == NoCode && s.gate.signedIn
  {
    SixDigitRendering(newCode);
    ParseDecimalString(newCode);
  }

  /** The code 482913 issued at t0 and entered at t0 + 540 verifies; the same
      code replayed afterwards is rejected and logs the user out. */
  lemma ScenarioVerifyThenReplay(g: Gate, ip: string, t0: int)
    requires Attempts(g.limits, VerifyKey(ip), t0 + 540) == 0
    ensures var login := LoginStep(g, true, 482913, true, t0).gate;
            var first := VerifyStep(login, ip, "482913", t0 + 540);
            var replay := VerifyStep(first.gate, ip, "482913", t0 + 541);
            first.response == Verified && replay.response == Rejected && !replay.gate.signedIn
  {
    RenderSampleCode();
    LoginThenCorrectCodeVerifies(g, 482913, true, t0, ip, t0 + 540);
  }

  /** The decimal text of the sample code, built one digit at a time. */
  lemma RenderSampleCode()
    ensures DecimalString(482913) == "482913"
  {
    assert DecimalString(4) == "4";
    assert DecimalString(48) == DecimalString(4) + "8" == "48";
    assert DecimalString(482) == DecimalString(48) + "2" == "482";
    assert DecimalString(4829) == DecimalString(482) + "9" == "4829";
    assert DecimalString(48291) == DecimalString(4829) + "1" == "48291";
    assert DecimalString(482913) == DecimalString(48291) + "3" == "482913";
  }

  /** "000000" against 482913 at t0 + 60 is rejected: one hit on the
      address's counter, the code kept, the session logged out. */
  lemma ScenarioWrongCode(g: Gate, ip: string, t0: int)
    requires Attempts(g.limits, VerifyKey(ip), t0 + 60) == 0
    ensures var login := LoginStep(g, true, 482913, true, t0).gate;
            var s := VerifyStep(login, ip, "000000", t0 + 60);
            s.response == Rejected && !s.gate.signedIn && s.gate.code == Pending(482913, t0 + CodeLifetime)
            && Attempts(s.gate.limits, VerifyKey(ip), t0 + 60) == 1
  {
    ParseZeros("000000");
  }

  /** Logging in again replaces the first code: the first code verifies
      afterwards only when both draws gave the same number. */
  lemma SecondLoginInvalidatesFirstCode(g: Gate, c1: nat, c2: nat, m1: bool, m2: bool,
                                        t0: int, t1: int, ip: string, t: int)
    requires MinCode <= c1 <= MaxCode && MinCode <= c2 <= MaxCode
    requires VerifyStep(LoginStep(LoginStep(g, true, c1, m1, t0).gate, true, c2, m2, t1).gate,
                        ip, DecimalString(c1), t).response == Verified
    ensures c1 == c2
  {
    SixDigitRendering(c1);
    ParseDecimalString(c1);
  }
}
