/** The state the two-factor gate reads and writes, for one identity: the
    user's `two_factor_code` / `two_factor_expires_at` columns, whether the
    session is signed in as that user, and the shared rate-limit counters.
    Time is integer seconds. */
module TwoFactorState {
  import opened Text
  import opened RateLimiting

  /** `now()->addMinutes(10)`. */
  const CodeLifetime: int := 600

  /** `rand(100000, 999999)`. */
  const MinCode: nat := 100000
  const MaxCode: nat := 999999

  /** The two nullable columns. Every write in the application sets both or
      clears both, so they are one sum type. */
  datatype TwoFactorCode = NoCode | Pending(code: nat, expiresAt: int)

  /** PHP truthiness of the stored code (`$user->two_factor_code && ...`):
      a code of 0 reads as absent. Issued codes are never 0. */
  predicate HasCode(c: TwoFactorCode) {
    c.Pending? && c.code != 0
  }

  /** Every stored code was drawn from 100000..999999. */
  predicate IssuedCode(c: TwoFactorCode) {
    c.Pending? ==> MinCode <= c.code <= MaxCode
  }

  /** `'verify-2fa-' . $request->ip()`. */
  function VerifyKey(ip: string): string {
    "verify-2fa-" + ip
  }

  /** `'resend-2fa-' . $request->ip()`. */
  function ResendKey(ip: string): string {
    "resend-2fa-" + ip
  }

  /** The verify and resend counters never share a key, whatever the two
      addresses: the prefixes already differ in their first letter. */
  lemma KeysNeverShared(ip1: string, ip2: string)
    ensures VerifyKey(ip1) != ResendKey(ip2)
  {
    assert VerifyKey(ip1)[0] == 'v' && ResendKey(ip2)[0] == 'r';
  }

  /** One identity's gate as a value. */
  datatype Gate = Gate(code: TwoFactorCode, signedIn: bool, limits: Buckets)

  /** A transition of the gate together with the response it produces. */
  datatype Step<R> = Step(gate: Gate, response: R)

  /** The user record (only the two 2FA columns matter here). */
  class User {
    var twoFactor: TwoFactorCode

    constructor ()
      ensures twoFactor == NoCode
    {
      twoFactor := NoCode;
    }
  }

  /** The HTTP session: whether it is authenticated as the user, its id and
      its CSRF token. */
  class Session {
    var signedIn: bool
    var id: nat
    var csrfToken: nat

    constructor (id: nat, csrfToken: nat)
      ensures !signedIn && this.id == id && this.csrfToken == csrfToken
    {
      signedIn := false;
      this.id := id;
      this.csrfToken := csrfToken;
    }

    /** `Auth::logout()`. */
    method Logout()
      modifies this
      ensures !signedIn && id == old(id) && csrfToken == old(csrfToken)
    {
      signedIn := false;
    }
  }

  function Snapshot(user: User, session: Session, limiter: RateLimiter): Gate
    reads user, session, limiter
  {
    Gate(user.twoFactor, session.signedIn, limiter.buckets)
  }
}
