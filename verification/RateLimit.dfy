/** The token-bucket rate limiter and its Lua twin (engine/api/rate_limit.py). */
module RateLimit {
  import opened Wrappers
  import opened OrderedDict

  const MIN_RETRY_AFTER_SEC := 0.001
  const MAX_RETRY_AFTER_SEC := 86400.0

  /** The parameters of one bucket. */
  datatype Rate = Rate(capacity: int, refill: real)

  /** The stored state of one key. */
  datatype Bucket = Bucket(tokens: real, last: real)

  datatype Reply = Reply(ok: bool, remaining: int, retry: real)

  function Min(a: real, b: real): real { if a <= b then a else b }
  function Max(a: real, b: real): real { if a >= b then a else b }

  /** Python's int(x): truncation toward zero. */
  function Truncate(x: real): int {
    if x >= 0.0 then x.Floor else -(-x).Floor
  }

  // ----- one call on one key

  /** The refilled level a request at `now` finds. */
  function Level(rate: Rate, existing: Option<Bucket>, now: real): real {
    match existing
    case None => rate.capacity as real
    case Some(b) => Min(rate.capacity as real, b.tokens + Max(0.0, now - b.last) * rate.refill)
  }

  function After(rate: Rate, existing: Option<Bucket>, now: real): Bucket {
    var level := Level(rate, existing, now);
    Bucket(if level >= 1.0 then level - 1.0 else level, now)
  }

  function Answer(rate: Rate, existing: Option<Bucket>, now: real): Reply {
    var level := Level(rate, existing, now);
    if level >= 1.0 then Reply(true, Truncate(level - 1.0), 0.0)
    else if rate.refill > 0.0 then
      Reply(false, 0, Min(Max(MIN_RETRY_AFTER_SEC, (1.0 - level) / rate.refill), MAX_RETRY_AFTER_SEC))
    else Reply(false, 0, MAX_RETRY_AFTER_SEC)
  }

  // ----- runs of one key

  /** A nondecreasing clock that has reached `t`. */
  ghost predicate ClockFrom(t: real, times: seq<real>)
    decreases times
  {
    times == [] || (t <= times[0] && ClockFrom(times[0], times[1..]))
  }

  function Answers(rate: Rate, existing: Option<Bucket>, times: seq<real>): seq<Reply>
    decreases times
  {
    if times == [] then []
    else [Answer(rate, existing, times[0])] + Answers(rate, Some(After(rate, existing, times[0])), times[1..])
  }

  /** How many requests with times in [s, e] are admitted. */
  function Admitted(rate: Rate, existing: Option<Bucket>, times: seq<real>, s: real, e: real): nat
    decreases times
  {
    if times == [] then 0
    else
      (if s <= times[0] <= e && Answer(rate, existing, times[0]).ok then 1 else 0)
      + Admitted(rate, Some(After(rate, existing, times[0])), times[1..], s, e)
  }

  /** The refill of the time between two instants. */
  ghost function Gain(rate: Rate, from: real, to: real): real {
    (to - from) * rate.refill
  }

  lemma GainNonNegative(rate: Rate, from: real, to: real)
    requires rate.refill >= 0.0 && from <= to
    ensures Gain(rate, from, to) >= 0.0
  {}

  lemma GainSplit(rate: Rate, from: real, mid: real, to: real)
    ensures Gain(rate, from, to) == Gain(rate, from, mid) + Gain(rate, mid, to)
  {}

  /** The most that [s, e] can still admit: the level at its start plus all later refill. */
  ghost function Potential(rate: Rate, existing: Option<Bucket>, s: real, e: real): real {
    match existing
    case None => rate.capacity as real + Gain(rate, s, e)
    case Some(b) =>
      if b.last <= s then Level(rate, existing, s) + Gain(rate, s, e)
      else if b.last <= e then Level(rate, existing, b.last) + Gain(rate, b.last, e)
      else 0.0
  }

  ghost predicate Sane(rate: Rate, existing: Option<Bucket>, t: real) {
    && rate.capacity >= 0
    && rate.refill >= 0.0
    && (existing.Some? ==> 0.0 <= existing.value.tokens && existing.value.last <= t)
  }

  /** The level once the clock has reached the bucket's last update. */
  lemma LevelFrom(rate: Rate, b: Bucket, t: real)
    requires Sane(rate, Some(b), t)
    ensures Level(rate, Some(b), t) == Min(rate.capacity as real, b.tokens + Gain(rate, b.last, t))
    ensures 0.0 <= Level(rate, Some(b), t) <= rate.capacity as real
  {
    GainNonNegative(rate, b.last, t);
  }

  /** Waiting from t to u adds at most the refill of that time. */
  lemma LevelLater(rate: Rate, b: Bucket, t: real, u: real)
    requires Sane(rate, Some(b), t) && t <= u
    ensures Level(rate, Some(b), u) <= Level(rate, Some(b), t) + Gain(rate, t, u)
  {
    LevelFrom(rate, b, t);
    LevelFrom(rate, b, u);
    GainSplit(rate, b.last, t, u);
    GainNonNegative(rate, t, u);
  }

  /** A request at t leaves no more for u than not having made it. */
  lemma RequestLowersLevel(rate: Rate, b: Bucket, t: real, u: real)
    requires Sane(rate, Some(b), t) && t <= u
    ensures Level(rate, Some(After(rate, Some(b), t)), u) <= Level(rate, Some(b), u)
    ensures t == u && Answer(rate, Some(b), t).ok ==>
              Level(rate, Some(After(rate, Some(b), t)), u) + 1.0 <= Level(rate, Some(b), u)
  {
    LevelFrom(rate, b, t);
    LevelFrom(rate, b, u);
    LevelFrom(rate, After(rate, Some(b), t), u);
    GainSplit(rate, b.last, t, u);
    GainNonNegative(rate, t, u);
  }

  /** What is left is never negative and never above the window bound. */
  lemma PotentialRange(rate: Rate, existing: Option<Bucket>, t: real, s: real, e: real)
    requires s <= e && Sane(rate, existing, t)
    ensures 0.0 <= Potential(rate, existing, s, e) <= rate.capacity as real + Gain(rate, s, e)
  {
    GainNonNegative(rate, s, e);
    if existing.Some? {
      var b := existing.value;
      LevelFrom(rate, b, if b.last <= s then s else b.last);
      if s < b.last <= e {
        GainSplit(rate, s, b.last, e);
        GainNonNegative(rate, s, b.last);
        GainNonNegative(rate, b.last, e);
      }
    }
  }

  /** A request inside the window costs it the admission. */
  lemma RequestInWindow(rate: Rate, b: Bucket, t: real, s: real, e: real)
    requires Sane(rate, Some(b), t) && s < t <= e
    ensures Potential(rate, Some(After(rate, Some(b), t)), s, e) + (if Answer(rate, Some(b), t).ok then 1.0 else 0.0)
            <= Potential(rate, Some(b), s, e)
  {
    var m := if b.last <= s then s else b.last;
    LevelFrom(rate, b, t);
    LevelLater(rate, b, m, t);
    GainSplit(rate, m, t, e);
    RequestLowersLevel(rate, b, t, t);
    assert After(rate, Some(b), t).last == t;
  }

  /** One request costs the window its admission and never raises what is left. */
  lemma PotentialStep(rate: Rate, existing: Option<Bucket>, t: real, s: real, e: real)
    requires s <= e && Sane(rate, existing, t)
    ensures Sane(rate, Some(After(rate, existing, t)), t)
    ensures Potential(rate, Some(After(rate, existing, t)), s, e)
            + (if s <= t <= e && Answer(rate, existing, t).ok then 1.0 else 0.0)
            <= Potential(rate, existing, s, e)
  {
    // A new key acts as a full bucket last updated now.
    var b := if existing.Some? then existing.value else Bucket(rate.capacity as real, t);
    LevelFrom(rate, b, t);
    assert Level(rate, existing, t) == Level(rate, Some(b), t);
    assert After(rate, existing, t) == After(rate, Some(b), t);
    PotentialRange(rate, existing, t, s, e);
    if t <= e {
      if t <= s {
        RequestLowersLevel(rate, b, t, s);
      } else {
        RequestInWindow(rate, b, t, s, e);
      }
      PotentialRange(rate, Some(b), t, s, e);
    }
  }

  lemma {:induction false} AdmittedWithinPotential(
      rate: Rate, existing: Option<Bucket>, t: real, times: seq<real>, s: real, e: real)
    requires s <= e && Sane(rate, existing, t) && ClockFrom(t, times)
    ensures Admitted(rate, existing, times, s, e) as real <= Potential(rate, existing, s, e)
    decreases times
  {
    if times == [] {
      PotentialRange(rate, existing, t, s, e);
    } else {
      PotentialStep(rate, existing, times[0], s, e);
      AdmittedWithinPotential(rate, Some(After(rate, existing, times[0])), times[0], times[1..], s, e);
    }
  }

  /** The window bound: at most capacity + Gain(s, e) admissions in [s, e]. */
  lemma RateBound(rate: Rate, existing: Option<Bucket>, t: real, times: seq<real>, s: real, e: real)
    requires s <= e && Sane(rate, existing, t) && ClockFrom(t, times)
    ensures Admitted(rate, existing, times, s, e) as real <= rate.capacity as real + Gain(rate, s, e)
  {
    AdmittedWithinPotential(rate, existing, t, times, s, e);
    PotentialRange(rate, existing, t, s, e);
  }

  /** The bound is met exactly by a burst: of n requests at one instant, min(n, capacity) get in. */
  lemma {:induction false} BurstAdmitsCapacity(rate: Rate, level: nat, at: real, n: nat)
    requires level <= rate.capacity
    ensures Admitted(rate, Some(Bucket(level as real, at)), seq(n, _ => at), at, at) == if n <= level then n else level
  {
    if n > 0 {
      var times := seq(n, _ => at);
      assert times[1..] == seq(n - 1, _ => at);
      BurstAdmitsCapacity(rate, if level >= 1 then level - 1 else 0, at, n - 1);
    }
  }

  // ----- the keyed store: calls of all keys interleaved, with eviction

  datatype Call = Call(key: string, now: real)

  function Evict(maxKeys: nat, s: seq<Entry<string, Bucket>>): seq<Entry<string, Bucket>> {
    if |s| <= maxKeys then s else Evict(maxKeys, s[1..])
  }

  function StoreAfter(rate: Rate, maxKeys: nat, s: seq<Entry<string, Bucket>>, c: Call): seq<Entry<string, Bucket>> {
    Evict(maxKeys, Without(s, c.key) + [Entry(c.key, After(rate, Find(s, c.key), c.now))])
  }

  /** The replies that the calls of `key` get in the interleaved run. */
  function RepliesTo(rate: Rate, maxKeys: nat, s: seq<Entry<string, Bucket>>, calls: seq<Call>, key: string): seq<Reply>
    decreases calls
  {
    if calls == [] then []
    else
      (if calls[0].key == key then [Answer(rate, Find(s, key), calls[0].now)] else [])
      + RepliesTo(rate, maxKeys, StoreAfter(rate, maxKeys, s, calls[0]), calls[1..], key)
  }

  function TimesOf(calls: seq<Call>, key: string): seq<real> {
    if calls == [] then []
    else (if calls[0].key == key then [calls[0].now] else []) + TimesOf(calls[1..], key)
  }

  /** `key` is never dropped by an eviction during the run. */
  ghost predicate Kept(rate: Rate, maxKeys: nat, s: seq<Entry<string, Bucket>>, calls: seq<Call>, key: string)
    decreases calls
  {
    calls == [] ||
    var s' := StoreAfter(rate, maxKeys, s, calls[0]);
    && (key == calls[0].key || key in Keys(s) ==> key in Keys(s'))
    && Kept(rate, maxKeys, s', calls[1..], key)
  }

  lemma {:induction false} EvictFacts(maxKeys: nat, s: seq<Entry<string, Bucket>>, key: string)
    requires Distinct(s)
    ensures Distinct(Evict(maxKeys, s)) && |Evict(maxKeys, s)| == if |s| <= maxKeys then |s| else maxKeys
    ensures Keys(Evict(maxKeys, s)) <= Keys(s)
    ensures key in Keys(Evict(maxKeys, s)) ==> Find(Evict(maxKeys, s), key) == Find(s, key)
    decreases |s|
  {
    if |s| > maxKeys {
      EvictFacts(maxKeys, s[1..], key);
    }
  }

  /** A key that is not evicted is served as if it were alone. */
  lemma {:induction false} KeysAreIndependent(
      rate: Rate, maxKeys: nat, s: seq<Entry<string, Bucket>>, calls: seq<Call>, key: string)
    requires Distinct(s) && Kept(rate, maxKeys, s, calls, key)
    ensures RepliesTo(rate, maxKeys, s, calls, key) == Answers(rate, Find(s, key), TimesOf(calls, key))
    decreases calls
  {
    if calls != [] {
      var c := calls[0];
      var s' := StoreAfter(rate, maxKeys, s, c);
      var b := After(rate, Find(s, c.key), c.now);
      RefreshFacts(s, c.key, b);
      EvictFacts(maxKeys, Without(s, c.key) + [Entry(c.key, b)], key);
      FindInKeys(s, key);
      FindInKeys(s', key);
      KeysAreIndependent(rate, maxKeys, s', calls[1..], key);
      if c.key == key {
        assert TimesOf(calls, key)[1..] == TimesOf(calls[1..], key);
      } else {
        assert TimesOf(calls, key) == TimesOf(calls[1..], key);
      }
    }
  }

  /** The number of admitting replies whose request times lie in [s, e]. */
  function CountOk(replies: seq<Reply>, times: seq<real>, s: real, e: real): nat
    requires |replies| == |times|
  {
    if replies == [] then 0
    else (if s <= times[0] <= e && replies[0].ok then 1 else 0) + CountOk(replies[1..], times[1..], s, e)
  }

  lemma {:induction false} CountOkIsAdmitted(rate: Rate, existing: Option<Bucket>, times: seq<real>, s: real, e: real)
    ensures |Answers(rate, existing, times)| == |times|
    ensures CountOk(Answers(rate, existing, times), times, s, e) == Admitted(rate, existing, times, s, e)
    decreases times
  {
    if times != [] {
      var a := Answers(rate, existing, times);
      assert a[1..] == Answers(rate, Some(After(rate, existing, times[0])), times[1..]);
      CountOkIsAdmitted(rate, Some(After(rate, existing, times[0])), times[1..], s, e);
    }
  }

  ghost predicate CallClock(t: real, calls: seq<Call>)
    decreases calls
  {
    calls == [] || (t <= calls[0].now && CallClock(calls[0].now, calls[1..]))
  }

  lemma {:induction false} ClockOfKey(t: real, u: real, calls: seq<Call>, key: string)
    requires u <= t && CallClock(t, calls)
    ensures ClockFrom(u, TimesOf(calls, key))
    decreases calls
  {
    if calls != [] {
      var rest := TimesOf(calls[1..], key);
      if calls[0].key == key {
        ClockOfKey(calls[0].now, calls[0].now, calls[1..], key);
        assert TimesOf(calls, key)[1..] == rest;
      } else {
        ClockOfKey(calls[0].now, u, calls[1..], key);
        assert TimesOf(calls, key) == rest;
      }
    }
  }

  /** The window bound for one key of a shared store, whatever other keys do meanwhile. */
  lemma KeyedRateBound(rate: Rate, maxKeys: nat, calls: seq<Call>, t: real, key: string, s: real, e: real)
    requires rate.capacity >= 0 && rate.refill >= 0.0 && s <= e
    requires CallClock(t, calls) && Kept(rate, maxKeys, [], calls, key)
    ensures |RepliesTo(rate, maxKeys, [], calls, key)| == |TimesOf(calls, key)|
    ensures CountOk(RepliesTo(rate, maxKeys, [], calls, key), TimesOf(calls, key), s, e) as real
            <= rate.capacity as real + Gain(rate, s, e)
  {
    KeysAreIndependent(rate, maxKeys, [], calls, key);
    CountOkIsAdmitted(rate, None, TimesOf(calls, key), s, e);
    ClockOfKey(t, t, calls, key);
    RateBound(rate, None, t, TimesOf(calls, key), s, e);
  }

  function CalledKeys(calls: seq<Call>): set<string> {
    if calls == [] then {} else {calls[0].key} + CalledKeys(calls[1..])
  }

  /** A caller can rule eviction out: no more distinct keys than the store may hold. */
  lemma {:induction false} KeptWhileKeysFit(
      rate: Rate, maxKeys: nat, s: seq<Entry<string, Bucket>>, calls: seq<Call>, key: string)
    requires Distinct(s) && |Keys(s) + CalledKeys(calls)| <= maxKeys
    ensures Kept(rate, maxKeys, s, calls, key)
    decreases calls
  {
    if calls != [] {
      var c := calls[0];
      var b := After(rate, Find(s, c.key), c.now);
      var touched := Without(s, c.key) + [Entry(c.key, b)];
      RefreshFacts(s, c.key, b);
      KeysSize(touched);
      SubsetSize(Keys(touched), Keys(s) + CalledKeys(calls));
      assert Keys(touched) + CalledKeys(calls[1..]) == Keys(s) + CalledKeys(calls);
      KeptWhileKeysFit(rate, maxKeys, touched, calls[1..], key);
    }
  }

  // ----- the Lua script of the distributed backend

  /** A hash with its two fields and, once EXPIRE ran, the time it may be reaped. */
  datatype Hash = Hash(tokens: real, ts: real, expiresAt: Option<real>)

  datatype LuaReply = LuaReply(ok: int, remaining: int, retry: real)

  function LuaLevel(rate: Rate, data: Option<Hash>, now: real): real {
    var tokens := if data.None? then rate.capacity as real else data.value.tokens;
    var ts := if data.None? then now else data.value.ts;
    var elapsed := if now > ts then now - ts else 0.0;
    Min(rate.capacity as real, tokens + elapsed * rate.refill)
  }

  function LuaAfter(rate: Rate, ttl: nat, data: Option<Hash>, now: real): Hash {
    var level := LuaLevel(rate, data, now);
    Hash(if level >= 1.0 then level - 1.0 else level, now,
         if ttl > 0 then Some(now + ttl as real) else if data.Some? then data.value.expiresAt else None)
  }

  function LuaAnswer(rate: Rate, data: Option<Hash>, now: real): LuaReply {
    var level := LuaLevel(rate, data, now);
    if level >= 1.0 then LuaReply(1, (level - 1.0).Floor, 0.0)
    else LuaReply(0, level.Floor, if rate.refill > 0.0 then (1.0 - level) / rate.refill else 86400.0)
  }

  /** What ValkeyBucketBackend.update does to the wait that the script answers. */
  function ClampRetry(retry: real): real {
    Max(MIN_RETRY_AFTER_SEC, Min(retry, MAX_RETRY_AFTER_SEC))
  }

  /** What ValkeyBucketBackend.update and the in-memory backend both promise to report; the wait counts for denied calls only. */
  predicate SameDecision(m: Reply, l: LuaReply) {
    m.ok == (l.ok != 0) && m.remaining == l.remaining && (!m.ok ==> m.retry == ClampRetry(l.retry))
  }

  /** From equal stored pairs the two give the same decision exactly when the level is not negative. */
  lemma SameDecisionIff(rate: Rate, b: Bucket, expiresAt: Option<real>, now: real)
    ensures SameDecision(Answer(rate, Some(b), now), LuaAnswer(rate, Some(Hash(b.tokens, b.last, expiresAt)), now))
            <==> Level(rate, Some(b), now) >= 0.0
  {
    var h := Some(Hash(b.tokens, b.last, expiresAt));
    SameLevel(rate, b, expiresAt, now);
    SameWait(rate, Level(rate, Some(b), now));
    hide Level, LuaLevel, Min, Max, ClampRetry;
    var m, l := Answer(rate, Some(b), now), LuaAnswer(rate, h, now);
    assert m.ok <==> l.ok != 0;
  }

  lemma SameLevel(rate: Rate, b: Bucket, expiresAt: Option<real>, now: real)
    ensures LuaLevel(rate, Some(Hash(b.tokens, b.last, expiresAt)), now) == Level(rate, Some(b), now)
  {}

  /** Clamping in the backend and clamping the script's answer come to the same. */
  lemma SameWait(rate: Rate, level: real)
    ensures rate.refill > 0.0 ==>
              Min(Max(MIN_RETRY_AFTER_SEC, (1.0 - level) / rate.refill), MAX_RETRY_AFTER_SEC) == ClampRetry((1.0 - level) / rate.refill)
    ensures ClampRetry(86400.0) == MAX_RETRY_AFTER_SEC
  {}

  /** Requests of one key, and moments at which the server reaps it if its time has come. */
  datatype Event = Request(now: real) | Reap(now: real)

  function Reaped(data: Option<Hash>, at: real): Option<Hash> {
    if data.Some? && data.value.expiresAt.Some? && data.value.expiresAt.value <= at then None else data
  }

  function LuaAnswers(rate: Rate, ttl: nat, data: Option<Hash>, events: seq<Event>): seq<LuaReply>
    decreases events
  {
    if events == [] then []
    else match events[0]
      case Request(now) => [LuaAnswer(rate, data, now)] + LuaAnswers(rate, ttl, Some(LuaAfter(rate, ttl, data, now)), events[1..])
      case Reap(now) => LuaAnswers(rate, ttl, Reaped(data, now), events[1..])
  }

  function LuaFinal(rate: Rate, ttl: nat, data: Option<Hash>, events: seq<Event>): Option<Hash>
    decreases events
  {
    if events == [] then data
    else match events[0]
      case Request(now) => LuaFinal(rate, ttl, Some(LuaAfter(rate, ttl, data, now)), events[1..])
      case Reap(now) => LuaFinal(rate, ttl, Reaped(data, now), events[1..])
  }

  function Final(rate: Rate, existing: Option<Bucket>, times: seq<real>): Option<Bucket>
    decreases times
  {
    if times == [] then existing else Final(rate, Some(After(rate, existing, times[0])), times[1..])
  }

  function Requests(events: seq<Event>): seq<real> {
    if events == [] then []
    else (if events[0].Request? then [events[0].now] else []) + Requests(events[1..])
  }

  ghost predicate EventClock(t: real, events: seq<Event>)
    decreases events
  {
    events == [] || (t <= events[0].now && EventClock(events[0].now, events[1..]))
  }

  ghost predicate Agree(ms: seq<Reply>, ls: seq<LuaReply>) {
    |ms| == |ls| && (ms == [] || (SameDecision(ms[0], ls[0]) && Agree(ms[1..], ls[1..])))
  }

  /** The stores match at time t: the same pair, or a reaped hash for a bucket that has refilled. */
  ghost predicate Twins(rate: Rate, ttl: nat, existing: Option<Bucket>, data: Option<Hash>, t: real) {
    match data
    case Some(h) =>
      && existing == Some(Bucket(h.tokens, h.ts))
      && 0.0 <= h.tokens && h.ts <= t
      && h.expiresAt == if ttl > 0 then Some(h.ts + ttl as real) else None
    case None =>
      existing.Some? ==>
        && 0.0 <= existing.value.tokens && existing.value.last <= t
        && Level(rate, existing, t) == rate.capacity as real
  }

  /** The condition under which a reaped key cannot be told from a kept one. */
  predicate TtlCoversRefill(rate: Rate, ttl: nat) {
    ttl == 0 || ttl as real * rate.refill >= rate.capacity as real
  }

  lemma FullStaysFull(rate: Rate, b: Bucket, t: real, t': real)
    requires rate.refill >= 0.0 && b.last <= t <= t'
    requires Level(rate, Some(b), t) == rate.capacity as real
    ensures Level(rate, Some(b), t') == rate.capacity as real
  {
    GainSplit(rate, b.last, t, t');
    GainNonNegative(rate, t, t');
    GainNonNegative(rate, b.last, t);
  }

  lemma TwinsRequest(rate: Rate, ttl: nat, existing: Option<Bucket>, data: Option<Hash>, t: real, now: real)
    requires rate.capacity >= 0 && rate.refill >= 0.0 && t <= now && Twins(rate, ttl, existing, data, t)
    ensures Level(rate, existing, now) == LuaLevel(rate, data, now) >= 0.0
    ensures SameDecision(Answer(rate, existing, now), LuaAnswer(rate, data, now))
    ensures var h := LuaAfter(rate, ttl, data, now); After(rate, existing, now) == Bucket(h.tokens, h.ts)
    ensures Twins(rate, ttl, Some(After(rate, existing, now)), Some(LuaAfter(rate, ttl, data, now)), now)
  {
    if existing.Some? {
      var b := existing.value;
      GainNonNegative(rate, b.last, now);
      if data.None? {
        FullStaysFull(rate, b, t, now);
      }
    }
  }

  lemma TwinsReap(rate: Rate, ttl: nat, existing: Option<Bucket>, data: Option<Hash>, t: real, now: real)
    requires rate.capacity >= 0 && rate.refill >= 0.0 && t <= now && Twins(rate, ttl, existing, data, t)
    requires TtlCoversRefill(rate, ttl)
    ensures Twins(rate, ttl, existing, Reaped(data, now), now)
  {
    if data.Some? && Reaped(data, now).None? {
      GainSplit(rate, data.value.ts, data.value.ts + ttl as real, now);
      GainNonNegative(rate, data.value.ts + ttl as real, now);
    } else if data.None? && existing.Some? {
      FullStaysFull(rate, existing.value, t, now);
    }
  }

  function LastTime(t: real, events: seq<Event>): real
    decreases events
  {
    if events == [] then t else LastTime(events[0].now, events[1..])
  }

  /** On every run of a key the twins decide alike, and reaping shows nowhere. */
  lemma {:induction false} TwinsAgree(
      rate: Rate, ttl: nat, existing: Option<Bucket>, data: Option<Hash>, t: real, events: seq<Event>)
    requires rate.capacity >= 0 && rate.refill >= 0.0 && TtlCoversRefill(rate, ttl)
    requires Twins(rate, ttl, existing, data, t) && EventClock(t, events)
    ensures Agree(Answers(rate, existing, Requests(events)), LuaAnswers(rate, ttl, data, events))
    decreases events
  {
    if events != [] {
      var now, rest := events[0].now, events[1..];
      match events[0]
      case Request(_) =>
        var existing', data' := Some(After(rate, existing, now)), Some(LuaAfter(rate, ttl, data, now));
        TwinsRequest(rate, ttl, existing, data, t, now);
        TwinsAgree(rate, ttl, existing', data', now, rest);
        assert Requests(events)[1..] == Requests(rest);
        AgreeCons(Answer(rate, existing, now), Answers(rate, existing', Requests(rest)),
                  LuaAnswer(rate, data, now), LuaAnswers(rate, ttl, data', rest));
      case Reap(_) =>
        TwinsReap(rate, ttl, existing, data, t, now);
        TwinsAgree(rate, ttl, existing, Reaped(data, now), now, rest);
        assert Requests(events) == Requests(rest);
    }
  }

  lemma AgreeCons(m: Reply, ms: seq<Reply>, l: LuaReply, ls: seq<LuaReply>)
    ensures Agree([m] + ms, [l] + ls) <==> SameDecision(m, l) && Agree(ms, ls)
  {
    assert ([m] + ms)[1..] == ms && ([l] + ls)[1..] == ls;
  }

  /** And they store alike after every run: the same pair, or a reaped hash for a refilled bucket. */
  lemma {:induction false} TwinsStoreAlike(
      rate: Rate, ttl: nat, existing: Option<Bucket>, data: Option<Hash>, t: real, events: seq<Event>)
    requires rate.capacity >= 0 && rate.refill >= 0.0 && TtlCoversRefill(rate, ttl)
    requires Twins(rate, ttl, existing, data, t) && EventClock(t, events)
    ensures Twins(rate, ttl, Final(rate, existing, Requests(events)), LuaFinal(rate, ttl, data, events), LastTime(t, events))
    decreases events
  {
    if events != [] {
      var now, rest := events[0].now, events[1..];
      match events[0]
      case Request(_) =>
        TwinsRequest(rate, ttl, existing, data, t, now);
        TwinsStoreAlike(rate, ttl, Some(After(rate, existing, now)), Some(LuaAfter(rate, ttl, data, now)), now, rest);
        assert Requests(events)[1..] == Requests(rest);
      case Reap(_) =>
        TwinsReap(rate, ttl, existing, data, t, now);
        TwinsStoreAlike(rate, ttl, existing, Reaped(data, now), now, rest);
        assert Requests(events) == Requests(rest);
    }
  }

  /** n requests at time 0, then a reaping moment and one more request when the ttl is over. */
  function DrainAndReturn(n: nat, ttl: nat): seq<Event> {
    if n == 0 then [Reap(ttl as real), Request(ttl as real)] else [Request(0.0)] + DrainAndReturn(n - 1, ttl)
  }

  lemma {:induction false} DrainClock(n: nat, ttl: nat)
    ensures EventClock(0.0, DrainAndReturn(n, ttl))
  {
    var events := DrainAndReturn(n, ttl);
    if n > 0 {
      DrainClock(n - 1, ttl);
      assert events[1..] == DrainAndReturn(n - 1, ttl);
    } else {
      assert events[1..] == [Request(ttl as real)];
      assert events[1..][1..] == [];
    }
  }

  /** After the drain one side has only the refill of the ttl, the other a full bucket. */
  lemma ReturnDisagrees(rate: Rate, ttl: nat)
    requires rate.capacity >= 0 && rate.refill >= 0.0 && !TtlCoversRefill(rate, ttl)
    ensures !SameDecision(Answer(rate, Some(Bucket(0.0, 0.0)), ttl as real), LuaAnswer(rate, None, ttl as real))
  {
    GainNonNegative(rate, 0.0, ttl as real);
    var level := Level(rate, Some(Bucket(0.0, 0.0)), ttl as real);
    assert level == ttl as real * rate.refill < rate.capacity as real;
    assert (rate.capacity as real - 1.0).Floor == rate.capacity - 1;
    if level >= 1.0 {
      assert (level - 1.0).Floor < rate.capacity - 1;
    }
  }

  lemma {:induction false} DrainDisagrees(rate: Rate, ttl: nat, n: nat)
    requires n <= rate.capacity && rate.refill >= 0.0 && !TtlCoversRefill(rate, ttl)
    ensures !Agree(Answers(rate, Some(Bucket(n as real, 0.0)), Requests(DrainAndReturn(n, ttl))),
                   LuaAnswers(rate, ttl, Some(Hash(n as real, 0.0, Some(ttl as real))), DrainAndReturn(n, ttl)))
    decreases n
  {
    var events := DrainAndReturn(n, ttl);
    var b, data := Bucket(n as real, 0.0), Hash(n as real, 0.0, Some(ttl as real));
    if n > 0 {
      var rest := DrainAndReturn(n - 1, ttl);
      assert events[1..] == rest;
      assert Requests(events)[1..] == Requests(rest);
      var b', data' := After(rate, Some(b), 0.0), LuaAfter(rate, ttl, Some(data), 0.0);
      assert b' == Bucket((n - 1) as real, 0.0) && data' == Hash((n - 1) as real, 0.0, Some(ttl as real));
      DrainDisagrees(rate, ttl, n - 1);
      AgreeCons(Answer(rate, Some(b), 0.0), Answers(rate, Some(b'), Requests(rest)),
                LuaAnswer(rate, Some(data), 0.0), LuaAnswers(rate, ttl, Some(data'), rest));
    } else {
      ReturnDisagrees(rate, ttl);
      DrainedRuns(rate, ttl, b, data);
    }
  }

  lemma {:induction false} DrainedRuns(rate: Rate, ttl: nat, b: Bucket, data: Hash)
    requires data.expiresAt == Some(ttl as real)
    ensures Answers(rate, Some(b), Requests(DrainAndReturn(0, ttl))) == [Answer(rate, Some(b), ttl as real)]
    ensures LuaAnswers(rate, ttl, Some(data), DrainAndReturn(0, ttl)) == [LuaAnswer(rate, None, ttl as real)]
  {
    var now := ttl as real;
    var last := [Request(now)];
    assert [Reap(now), Request(now)][1..] == last && last[1..] == [];
    assert Requests(last) == [now];
    assert Requests([Reap(now), Request(now)]) == [now];
    assert [now][1..] == [];
    assert Reaped(Some(data), now) == None;
    assert LuaAnswers(rate, ttl, None, last) == [LuaAnswer(rate, None, now)];
  }

  /** From an empty store, expiry is unobservable exactly when ttl * refill covers the capacity. */
  lemma ExpiryUnobservableIff(rate: Rate, ttl: nat)
    requires rate.capacity >= 0 && rate.refill >= 0.0
    ensures TtlCoversRefill(rate, ttl) <==>
            forall events | EventClock(0.0, events) ::
              Agree(Answers(rate, None, Requests(events)), LuaAnswers(rate, ttl, None, events))
  {
    if TtlCoversRefill(rate, ttl) {
      forall events | EventClock(0.0, events)
        ensures Agree(Answers(rate, None, Requests(events)), LuaAnswers(rate, ttl, None, events))
      {
        TwinsAgree(rate, ttl, None, None, 0.0, events);
      }
    } else {
      FullDrainDisagrees(rate, ttl);
      DrainClock(rate.capacity, ttl);
    }
  }

  lemma FullDrainDisagrees(rate: Rate, ttl: nat)
    requires rate.capacity >= 0 && rate.refill >= 0.0 && !TtlCoversRefill(rate, ttl)
    ensures var events := DrainAndReturn(rate.capacity, ttl);
            !Agree(Answers(rate, None, Requests(events)), LuaAnswers(rate, ttl, None, events))
  {
    GainNonNegative(rate, 0.0, ttl as real);
    var cap := rate.capacity;
    var events, rest := DrainAndReturn(cap, ttl), DrainAndReturn(cap - 1, ttl);
    assert events[1..] == rest;
    assert Requests(events)[1..] == Requests(rest);
    var b', data' := After(rate, None, 0.0), LuaAfter(rate, ttl, None, 0.0);
    assert b' == Bucket((cap - 1) as real, 0.0) && data' == Hash((cap - 1) as real, 0.0, Some(ttl as real));
    DrainDisagrees(rate, ttl, cap - 1);
    AgreeCons(Answer(rate, None, 0.0), Answers(rate, Some(b'), Requests(rest)),
              LuaAnswer(rate, None, 0.0), LuaAnswers(rate, ttl, Some(data'), rest));
  }

  // ----- the two backends

  class InMemoryBucketBackend {
    const maxKeys: nat
    var state: seq<Entry<string, Bucket>>

    constructor (maxKeys: nat)
      ensures this.maxKeys == maxKeys && state == []
    {
      this.maxKeys := maxKeys;
      state := [];
    }

    method Update(key: string, capacity: int, refillPerSec: real, now: real) returns (r: Reply)
      requires Distinct(state)
      modifies this
      ensures Distinct(state) && |state| <= maxKeys
      ensures state == StoreAfter(Rate(capacity, refillPerSec), maxKeys, old(state), Call(key, now))
      ensures r == Answer(Rate(capacity, refillPerSec), Find(old(state), key), now)
      ensures key in Keys(state) <==> maxKeys > 0
    {
      var existing := Find(state, key);
      var tokens, last := capacity as real, now;
      if existing.Some? {
        tokens, last := existing.value.tokens, existing.value.last;
      }
      var elapsed := Max(0.0, now - last);
      tokens := Min(capacity as real, tokens + elapsed * refillPerSec);
      ghost var rate := Rate(capacity, refillPerSec);
      assert tokens == Level(rate, existing, now) by {
        if existing.None? {
          assert elapsed == 0.0 && elapsed * refillPerSec == 0.0;
        }
      }
      if tokens >= 1.0 {
        tokens := tokens - 1.0;
        assert Bucket(tokens, now) == After(rate, existing, now);
        Remember(key, Bucket(tokens, now));
        return Reply(true, Truncate(tokens), 0.0);
      }
      var retry;
      if refillPerSec > 0.0 {
        var deficit := 1.0 - tokens;
        retry := Max(MIN_RETRY_AFTER_SEC, deficit / refillPerSec);
        retry := Min(retry, MAX_RETRY_AFTER_SEC);
      } else {
        retry := MAX_RETRY_AFTER_SEC;
      }
      Remember(key, Bucket(tokens, now));
      return Reply(false, 0, retry);
    }

    method Remember(key: string, b: Bucket)
      requires Distinct(state)
      modifies this
      ensures Distinct(state) && |state| <= maxKeys
      ensures state == Evict(maxKeys, Without(old(state), key) + [Entry(key, b)])
      ensures key in Keys(state) <==> maxKeys > 0
    {
      AssignThenMove(state, key, b);
      RefreshFacts(state, key, b);
      EvictFacts(maxKeys, Without(state, key) + [Entry(key, b)], key);
      EvictKeepsLast(maxKeys, Without(state, key), Entry(key, b));
      state := Assign(state, key, b);
      state := MoveToEnd(state, key);
      EvictIfNeeded();
    }

    method EvictIfNeeded()
      modifies this
      ensures state == Evict(maxKeys, old(state))
    {
      while |state| > maxKeys
        invariant Evict(maxKeys, state) == Evict(maxKeys, old(state))
        decreases |state|
      {
        state := state[1..];
      }
    }
  }

  lemma {:induction false} EvictKeepsLast(maxKeys: nat, s: seq<Entry<string, Bucket>>, e: Entry<string, Bucket>)
    ensures e.key in Keys(Evict(maxKeys, s + [e])) <==> maxKeys > 0
    decreases |s|
  {
    if |s| + 1 <= maxKeys {
      EntryInKeys(s + [e], e);
    } else if s == [] {
      assert (s + [e])[1..] == [];
    } else {
      assert (s + [e])[1..] == s[1..] + [e];
      EvictKeepsLast(maxKeys, s[1..], e);
    }
  }

  class ValkeyServer {
    var hashes: map<string, Hash>

    /** The script, run atomically with the caller's clock as the server's. */
    method Eval(key: string, capacity: int, refill: real, now: real, ttl: nat) returns (r: LuaReply)
      modifies this
      ensures var data := if key in old(hashes) then Some(old(hashes)[key]) else None;
              && r == LuaAnswer(Rate(capacity, refill), data, now)
              && hashes == old(hashes)[key := LuaAfter(Rate(capacity, refill), ttl, data, now)]
    {
      var tokens, ts;
      if key !in hashes {
        tokens, ts := capacity as real, now;
      } else {
        tokens, ts := hashes[key].tokens, hashes[key].ts;
      }
      var elapsed := 0.0;
      if now > ts {
        elapsed := now - ts;
      }
      tokens := Min(capacity as real, tokens + elapsed * refill);
      ghost var data := if key in hashes then Some(hashes[key]) else None;
      assert tokens == LuaLevel(Rate(capacity, refill), data, now);
      var ok, retry := 0, 0.0;
      if tokens >= 1.0 {
        tokens := tokens - 1.0;
        ok := 1;
      } else if refill > 0.0 {
        retry := (1.0 - tokens) / refill;
      } else {
        retry := 86400.0;
      }
      var hash := Hash(tokens, now, if key in hashes then hashes[key].expiresAt else None);
      hashes := hashes[key := hash];
      if ttl > 0 {
        hash := hash.(expiresAt := Some(now + ttl as real));
        hashes := hashes[key := hash];
      }
      assert hash == LuaAfter(Rate(capacity, refill), ttl, data, now);
      return LuaReply(ok, tokens.Floor, retry);
    }
  }
}
