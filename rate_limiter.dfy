/** The keyed attempt counters behind Laravel's `RateLimiter` facade, as the
    two-factor controller uses them: `hit(key, decay)`, `tooManyAttempts(key,
    max)` and `clear(key)`. A key's counter lives for a fixed window that its
    first hit opens; once `now` reaches the window's end the counter reads as
    zero again. The cache store behind it is not modelled. */
module RateLimiting {

  /** `hits` counted since the window opened; the window ends at `resetAt`. */
  datatype Bucket = Bucket(hits: nat, resetAt: int)

  type Buckets = map<string, Bucket>

  /** `RateLimiter::attempts($key)` at time `now`. */
  function Attempts(buckets: Buckets, key: string, now: int): nat {
    if key in buckets && now < buckets[key].resetAt then buckets[key].hits else 0
  }

  /** `RateLimiter::tooManyAttempts($key, $max)`. */
  predicate TooMany(buckets: Buckets, key: string, max: nat, now: int) {
    Attempts(buckets, key, now) >= max
  }

  /** `RateLimiter::hit($key, $decaySeconds)`: one more hit in the live window,
      or the first hit of a new window of `decaySeconds`. */
  function HitKey(buckets: Buckets, key: string, decaySeconds: nat, now: int): (after: Buckets)
    ensures decaySeconds > 0 ==> Attempts(after, key, now) == Attempts(buckets, key, now) + 1
    ensures forall k :: k != key ==> Attempts(after, k, now) == Attempts(buckets, k, now)
    ensures after - {key} == buckets - {key}
  {
    if key in buckets && now < buckets[key].resetAt then
      buckets[key := Bucket(buckets[key].hits + 1, buckets[key].resetAt)]
    else
      buckets[key := Bucket(1, now + decaySeconds)]
  }

  /** `RateLimiter::clear($key)`. */
  function ClearKey(buckets: Buckets, key: string): (after: Buckets)
    ensures forall now :: Attempts(after, key, now) == 0
    ensures forall k, now :: k != key ==> Attempts(after, k, now) == Attempts(buckets, k, now)
  {
    buckets - {key}
  }

  /** A hit never extends a window that is still open, and a window opened
      by a hit at `now` has closed by `now + decaySeconds`. */
  lemma HitWindowEnds(buckets: Buckets, key: string, decaySeconds: nat, now: int)
    ensures var after := HitKey(buckets, key, decaySeconds, now);
            Attempts(after, key, now + decaySeconds) == 0
            || (key in buckets && after[key].resetAt == buckets[key].resetAt)
  {
  }

  /** The shared counter store. */
  class RateLimiter {
    var buckets: Buckets

    constructor ()
      ensures buckets == map[]
    {
      buckets := map[];
    }

    predicate TooManyAttempts(key: string, max: nat, now: int)
      reads this
    {
      TooMany(buckets, key, max, now)
    }

    method Hit(key: string, decaySeconds: nat, now: int)
      modifies this
      ensures buckets == HitKey(old(buckets), key, decaySeconds, now)
    {
      if key in buckets && now < buckets[key].resetAt {
        buckets := buckets[key := Bucket(buckets[key].hits + 1, buckets[key].resetAt)];
      } else {
        buckets := buckets[key := Bucket(1, now + decaySeconds)];
      }
    }

    method Clear(key: string)
      modifies this
      ensures buckets == ClearKey(old(buckets), key)
    {
      buckets := buckets - {key};
    }
  }
}
