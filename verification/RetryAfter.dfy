/**
 What the wait and the remaining count of a rate-limit reply mean for the calls
 that follow (engine/api/rate_limit.py), for the in-memory bucket and the script.
 */
module RetryAfter {
  import opened Wrappers
  import opened RateLimit

  /** The next call on a key, d seconds after one at `now`, is let in. */
  predicate AdmittedAfter(rate: Rate, existing: Option<Bucket>, now: real, d: real) {
    Answer(rate, Some(After(rate, existing, now)), now + d).ok
  }

  predicate LuaAdmittedAfter(rate: Rate, ttl: nat, data: Option<Hash>, now: real, d: real) {
    LuaAnswer(rate, Some(LuaAfter(rate, ttl, data, now)), now + d).ok == 1
  }

  /** What a level lacks of one token arrives in that time, and not before. */
  lemma WaitCovers(refill: real, level: real, d: real)
    requires refill > 0.0
    ensures level + d * refill >= 1.0 <==> d >= (1.0 - level) / refill
  {
    var wait := (1.0 - level) / refill;
    assert wait * refill == 1.0 - level;
    assert d * refill - wait * refill == (d - wait) * refill;
    assert d >= wait ==> (d - wait) * refill >= 0.0;
    assert d < wait ==> (wait - d) * refill > 0.0;
  }

  lemma NothingArrives(refill: real, level: real, d: real)
    requires refill <= 0.0 && level < 1.0 && d >= 0.0
    ensures level + d * refill < 1.0
  {
    assert d * -refill >= 0.0;
  }

  /** Both count a new key as a full bucket, whatever the clock and the refill. */
  lemma NewKeyIsFull(rate: Rate, now: real)
    ensures Level(rate, None, now) == LuaLevel(rate, None, now) == rate.capacity as real
  {}

  /** A denied caller is told to wait between 0.001 and 86400 seconds. */
  lemma RetryIsClamped(rate: Rate, existing: Option<Bucket>, now: real)
    ensures var r := Answer(rate, existing, now);
            if r.ok then r.retry == 0.0 else 0.001 <= r.retry <= 86400.0 && r.remaining == 0
  {}

  /** Calling again after the wait is let in and calling sooner is not, except where the wait was clamped. */
  lemma RetryIsExact(rate: Rate, existing: Option<Bucket>, now: real, d: real)
    requires rate.capacity >= 1 && rate.refill > 0.0 && !Answer(rate, existing, now).ok && d >= 0.0
    ensures var retry := Answer(rate, existing, now).retry;
            && (retry < 86400.0 && d >= retry ==> AdmittedAfter(rate, existing, now, d))
            && (retry > 0.001 && d < retry ==> !AdmittedAfter(rate, existing, now, d))
  {
    WaitCovers(rate.refill, Level(rate, existing, now), d);
  }

  /** So strictly between the clamps the wait is the exact boundary. */
  lemma RetryIff(rate: Rate, existing: Option<Bucket>, now: real, d: real)
    requires rate.capacity >= 1 && rate.refill > 0.0 && !Answer(rate, existing, now).ok && d >= 0.0
    requires 0.001 < Answer(rate, existing, now).retry < 86400.0
    ensures AdmittedAfter(rate, existing, now, d) <==> d >= Answer(rate, existing, now).retry
  {
    RetryIsExact(rate, existing, now, d);
  }

  /** Without refill a denied caller is told the longest wait, and is not let in after any. */
  lemma NoRefillNoRetry(rate: Rate, existing: Option<Bucket>, now: real, d: real)
    requires rate.refill <= 0.0 && !Answer(rate, existing, now).ok && d >= 0.0
    ensures Answer(rate, existing, now).retry == 86400.0 && !AdmittedAfter(rate, existing, now, d)
  {
    NothingArrives(rate.refill, Level(rate, existing, now), d);
  }

  /** The script's wait is the exact boundary, unclamped. */
  lemma LuaRetryIff(rate: Rate, ttl: nat, data: Option<Hash>, now: real, d: real)
    requires rate.capacity >= 1 && rate.refill > 0.0 && LuaAnswer(rate, data, now).ok == 0 && d >= 0.0
    ensures LuaAnswer(rate, data, now).retry > 0.0
    ensures LuaAdmittedAfter(rate, ttl, data, now, d) <==> d >= LuaAnswer(rate, data, now).retry
  {
    var level := LuaLevel(rate, data, now);
    WaitCovers(rate.refill, level, d);
    WaitCovers(rate.refill, level, 0.0);
  }

  lemma LuaNoRefillNoRetry(rate: Rate, ttl: nat, data: Option<Hash>, now: real, d: real)
    requires rate.refill <= 0.0 && LuaAnswer(rate, data, now).ok == 0 && d >= 0.0
    ensures LuaAnswer(rate, data, now).retry == 86400.0 && !LuaAdmittedAfter(rate, ttl, data, now, d)
  {
    NothingArrives(rate.refill, LuaLevel(rate, data, now), d);
  }

  /** From equal stored pairs the two backends report the same wait exactly for denied calls: an admitted one gets 0 or 0.001. */
  lemma RetriesAgreeIff(rate: Rate, b: Bucket, expiresAt: Option<real>, now: real)
    ensures var m, l := Answer(rate, Some(b), now), LuaAnswer(rate, Some(Hash(b.tokens, b.last, expiresAt)), now);
            && (m.retry == ClampRetry(l.retry) <==> !m.ok)
            && (m.ok ==> m.retry == 0.0 && ClampRetry(l.retry) == 0.001)
  {
    assert LuaLevel(rate, Some(Hash(b.tokens, b.last, expiresAt)), now) == Level(rate, Some(b), now);
  }

  // ----- the remaining count

  /** Of n calls at one instant a bucket admits one for each whole token. */
  lemma {:induction false} BurstAdmitsWhole(rate: Rate, level: real, at: real, n: nat)
    requires 0.0 <= level <= rate.capacity as real
    ensures Admitted(rate, Some(Bucket(level, at)), seq(n, _ => at), at, at) == if n <= level.Floor then n else level.Floor
  {
    if n > 0 {
      assert seq(n, _ => at)[1..] == seq(n - 1, _ => at);
      BurstAdmitsWhole(rate, if level >= 1.0 then level - 1.0 else level, at, n - 1);
    }
  }

  /** An admitted caller is told exactly how many more calls at the same instant would be admitted. */
  lemma RemainingIsExact(rate: Rate, existing: Option<Bucket>, now: real, n: nat)
    requires Answer(rate, existing, now).ok
    ensures var more := Answer(rate, existing, now).remaining;
            more >= 0 && Admitted(rate, Some(After(rate, existing, now)), seq(n, _ => now), now, now) == if n <= more then n else more
  {
    BurstAdmitsWhole(rate, After(rate, existing, now).tokens, now, n);
  }
}
