/**
 * The rate-limit decision of the party command, and its effect on the
 * rate-limit cache (an LRU map from user to the instant of their last
 * recorded attempt).
 *
 * Instants are natural numbers of nanoseconds from a monotonic clock, so
 * that `since < Duration::from_secs(20)` and `since.as_secs()` keep their
 * sub-second behaviour.
 */
module RateLimit {
  import opened Types
  import Lru

  const NanosPerSecond: nat := 1_000_000_000
  /** Under this, a retry is dropped without a reply. */
  const ShortCooldown: nat := 20 * NanosPerSecond
  /** Under this, a retry is refused with the seconds still to wait. */
  const LongCooldown: nat := 300 * NanosPerSecond
  /** What a user without a record counts as (`Duration::from_secs(301)`). */
  const Unrecorded: nat := 301 * NanosPerSecond

  datatype Decision =
    | Silent              // dropped, no reply
    | AlreadyOwner        // "You already have a party! Disband it first."
    | TooSoon(wait: nat)  // "You're making parties too fast! Wait another {wait} seconds"
    | Allowed

  /** The time since the user's recorded instant; `duration_since` saturates at zero. */
  function Elapsed(last: Option<nat>, now: nat): (e: nat)
    ensures last.None? ==> e == Unrecorded
    ensures last.Some? && last.value <= now ==> e + last.value == now
  {
    match last
    case None => Unrecorded
    case Some(t) => if t <= now then now - t else 0
  }

  /**
   * The decision of `message`: a short cooldown drops silently, then a user
   * owning a party in this guild is refused, then a long cooldown refuses
   * with the whole seconds left (`300 - since.as_secs()`), else allowed.
   */
  function Decide(elapsed: nat, ownsParty: bool): (d: Decision)
    ensures d == Silent <==> elapsed < ShortCooldown
    ensures d == AlreadyOwner <==> ShortCooldown <= elapsed && ownsParty
    ensures d.TooSoon? <==> ShortCooldown <= elapsed < LongCooldown && !ownsParty
    ensures d == Allowed <==> LongCooldown <= elapsed && !ownsParty
    ensures d.TooSoon? ==> 1 <= d.wait <= 280 && d.wait == 300 - elapsed / NanosPerSecond
  {
    if elapsed < ShortCooldown then Silent
    else if ownsParty then AlreadyOwner
    else if elapsed < LongCooldown then TooSoon(300 - elapsed / NanosPerSecond)
    else Allowed
  }

  /** The decisions after which the source writes the user's instant into the cache. */
  predicate Stamps(d: Decision) {
    d == AlreadyOwner || d == Allowed
  }

  /**
   * One party command as far as the rate limiter goes: decide from the
   * peeked record (which does not promote it), then record `now` when the
   * decision stamps.
   */
  function Attempt(cache: Lru.Cache<UserId, nat>, user: UserId, now: nat, ownsParty: bool): (r: (Decision, Lru.Cache<UserId, nat>))
    requires cache.Valid()
    ensures r.1.Valid() && r.1.cap == cache.cap
    ensures r.0 == Decide(Elapsed(cache.Peek(user), now), ownsParty)
    ensures Stamps(r.0) ==> r.1 == cache.Put(user, now)
    ensures !Stamps(r.0) ==> r.1 == cache
  {
    var d := Decide(Elapsed(cache.Peek(user), now), ownsParty);
    (d, if Stamps(d) then cache.Put(user, now) else cache)
  }

  /** A run of attempts by one user at the given instants. */
  function Attempts(cache: Lru.Cache<UserId, nat>, user: UserId, times: seq<nat>, ownsParty: bool): (c: Lru.Cache<UserId, nat>)
    requires cache.Valid()
    ensures c.Valid()
    decreases |times|
  {
    if times == [] then cache
    else Attempts(Attempt(cache, user, times[0], ownsParty).1, user, times[1..], ownsParty)
  }

  /**
   * A burst of retries inside the short cooldown never moves the recorded
   * instant, so spamming cannot postpone the end of the cooldown; the whole
   * cache, recency included, is left as it was.
   */
  lemma {:induction false} BurstKeepsRecord(cache: Lru.Cache<UserId, nat>, user: UserId, times: seq<nat>, ownsParty: bool)
    requires cache.Valid() && user in cache.entries
    requires forall i :: 0 <= i < |times| ==> cache.entries[user] <= times[i] < cache.entries[user] + ShortCooldown
    ensures Attempts(cache, user, times, ownsParty) == cache
  {
    if times != [] {
      assert Attempt(cache, user, times[0], ownsParty).0 == Silent;
      BurstKeepsRecord(cache, user, times[1..], ownsParty);
    }
  }

  /**
   * The remaining seconds reported are accurate: retrying that many seconds
   * later (with the record unchanged, and still owning no party) is
   * allowed, and retrying one second earlier is still too soon.
   */
  lemma WaitIsAccurate(last: nat, now: nat)
    requires last <= now
    requires Decide(Elapsed(Some(last), now), false).TooSoon?
    ensures var w := Decide(Elapsed(Some(last), now), false).wait;
            Decide(Elapsed(Some(last), now + w * NanosPerSecond), false) == Allowed
            && Decide(Elapsed(Some(last), now + (w - 1) * NanosPerSecond), false).TooSoon?
  {
    var e := now - last;
    var s := e / NanosPerSecond;
    var w := 300 - s;
    assert e == s * NanosPerSecond + e % NanosPerSecond;
    assert w * NanosPerSecond == 300 * NanosPerSecond - s * NanosPerSecond;
    assert (w - 1) * NanosPerSecond == w * NanosPerSecond - NanosPerSecond;
  }

  /**
   * As written, the owner branch records the instant too: an owner who keeps
   * retrying at least every 20 seconds keeps getting the owner refusal and
   * their record follows their latest retry.
   */
  lemma OwnerRetryRefreshes(cache: Lru.Cache<UserId, nat>, user: UserId, now: nat)
    requires cache.Valid()
    requires Elapsed(cache.Peek(user), now) >= ShortCooldown
    ensures Attempt(cache, user, now, true).0 == AlreadyOwner
    ensures Attempt(cache, user, now, true).1.entries[user] == now
  {
  }
}
