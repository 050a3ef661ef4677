/**
 When the bounded store keeps the rate limit (engine/api/rate_limit.py): exactly
 when it can hold all keys in use at once.
 */
module RateEviction {
  import opened Wrappers
  import opened OrderedDict
  import opened RateLimit

  // ----- runs in two parts

  /** The store after a run of calls. */
  function StoreRun(rate: Rate, maxKeys: nat, s: seq<Entry<string, Bucket>>, calls: seq<Call>): seq<Entry<string, Bucket>>
    decreases calls
  {
    if calls == [] then s else StoreRun(rate, maxKeys, StoreAfter(rate, maxKeys, s, calls[0]), calls[1..])
  }

  lemma {:induction false} RepliesSplit(
      rate: Rate, maxKeys: nat, s: seq<Entry<string, Bucket>>, a: seq<Call>, b: seq<Call>, key: string)
    ensures RepliesTo(rate, maxKeys, s, a + b, key)
            == RepliesTo(rate, maxKeys, s, a, key) + RepliesTo(rate, maxKeys, StoreRun(rate, maxKeys, s, a), b, key)
    decreases a
  {
    hide StoreAfter, Answer;
    if a == [] {
      assert a + b == b;
    } else {
      assert (a + b)[0] == a[0] && (a + b)[1..] == a[1..] + b;
      RepliesSplit(rate, maxKeys, StoreAfter(rate, maxKeys, s, a[0]), a[1..], b, key);
    }
  }

  lemma {:induction false} OneReplyPerTime(rate: Rate, maxKeys: nat, s: seq<Entry<string, Bucket>>, calls: seq<Call>, key: string)
    ensures |RepliesTo(rate, maxKeys, s, calls, key)| == |TimesOf(calls, key)|
    decreases calls
  {
    if calls != [] {
      hide StoreAfter;
      OneReplyPerTime(rate, maxKeys, StoreAfter(rate, maxKeys, s, calls[0]), calls[1..], key);
    }
  }

  lemma AfterKeepsDistinct(rate: Rate, maxKeys: nat, s: seq<Entry<string, Bucket>>, c: Call, key: string)
    requires Distinct(s)
    ensures Distinct(StoreAfter(rate, maxKeys, s, c)) && |StoreAfter(rate, maxKeys, s, c)| <= maxKeys
    ensures var b := After(rate, Find(s, c.key), c.now);
            Find(StoreAfter(rate, maxKeys, s, c), c.key) == Some(b) || Find(StoreAfter(rate, maxKeys, s, c), c.key).None?
  {
    var b := After(rate, Find(s, c.key), c.now);
    var touched := Without(s, c.key) + [Entry(c.key, b)];
    RefreshFacts(s, c.key, b);
    EvictFacts(maxKeys, touched, c.key);
    FindInKeys(StoreAfter(rate, maxKeys, s, c), c.key);
  }

  // ----- draining a key at one instant

  function Burst(key: string, n: nat): seq<Call> {
    if n == 0 then [] else [Call(key, 0.0)] + Burst(key, n - 1)
  }

  ghost predicate AllOk(replies: seq<Reply>) {
    forall i :: 0 <= i < |replies| ==> replies[i].ok
  }

  /** A burst of no more calls than the level is admitted whole. */
  lemma {:induction false} BurstIsAdmitted(rate: Rate, maxKeys: nat, s: seq<Entry<string, Bucket>>, key: string, n: nat)
    requires Distinct(s) && Level(rate, Find(s, key), 0.0) >= n as real && n <= rate.capacity && rate.capacity >= 1
    ensures var replies := RepliesTo(rate, maxKeys, s, Burst(key, n), key); |replies| == n && AllOk(replies)
    ensures Distinct(StoreRun(rate, maxKeys, s, Burst(key, n)))
    decreases n
  {
    if n > 0 {
      var c := Call(key, 0.0);
      var s' := StoreAfter(rate, maxKeys, s, c);
      AfterKeepsDistinct(rate, maxKeys, s, c, key);
      assert Burst(key, n)[1..] == Burst(key, n - 1);
      assert Level(rate, Find(s', key), 0.0) >= (n - 1) as real;
      BurstIsAdmitted(rate, maxKeys, s', key, n - 1);
    }
  }

  // ----- pushing a key out

  /** The entries that are more recent than `key`. */
  function Behind(s: seq<Entry<string, Bucket>>, key: string): seq<Entry<string, Bucket>> {
    if s == [] then [] else if s[0].key == key then s[1..] else Behind(s[1..], key)
  }

  lemma {:induction false} BehindFacts(s: seq<Entry<string, Bucket>>, key: string)
    requires Distinct(s) && key in Keys(s)
    ensures Distinct(Behind(s, key)) && |Behind(s, key)| < |s|
  {
    if s[0].key != key {
      BehindFacts(s[1..], key);
    }
  }

  lemma {:induction false} BehindWithout(s: seq<Entry<string, Bucket>>, key: string, k: string)
    requires key != k
    ensures Behind(Without(s, k), key) == Without(Behind(s, key), k)
  {
    if s != [] {
      var w := Without(s, k);
      if s[0].key != k {
        assert w[0] == s[0] && w[1..] == Without(s[1..], k);
      }
      if s[0].key != key {
        BehindWithout(s[1..], key, k);
      }
    }
  }

  lemma {:induction false} BehindAppend(s: seq<Entry<string, Bucket>>, key: string, e: Entry<string, Bucket>)
    requires key in Keys(s)
    ensures Behind(s + [e], key) == Behind(s, key) + [e]
  {
    assert (s + [e])[0] == s[0] && (s + [e])[1..] == s[1..] + [e];
    if s[0].key != key {
      BehindAppend(s[1..], key, e);
    }
  }

  lemma {:induction false} BehindEvict(maxKeys: nat, s: seq<Entry<string, Bucket>>, key: string)
    requires Distinct(s) && key in Keys(Evict(maxKeys, s))
    ensures key in Keys(s) && Behind(Evict(maxKeys, s), key) == Behind(s, key)
    decreases |s|
  {
    if |s| > maxKeys {
      BehindEvict(maxKeys, s[1..], key);
    }
  }

  /** A call of another key comes to stand behind `key`, for as long as `key` is stored. */
  lemma OtherCallBehind(rate: Rate, maxKeys: nat, s: seq<Entry<string, Bucket>>, c: Call, key: string)
    requires Distinct(s) && c.key != key && key in Keys(StoreAfter(rate, maxKeys, s, c))
    ensures key in Keys(s)
    ensures Keys(Behind(StoreAfter(rate, maxKeys, s, c), key)) == Keys(Behind(s, key)) + {c.key}
  {
    var b := After(rate, Find(s, c.key), c.now);
    var touched := Without(s, c.key) + [Entry(c.key, b)];
    RefreshFacts(s, c.key, b);
    BehindEvict(maxKeys, touched, key);
    WithoutFacts(s, c.key);
    BehindWithout(s, key, c.key);
    BehindAppend(Without(s, c.key), key, Entry(c.key, b));
    RefreshFacts(Behind(s, key), c.key, b);
  }

  function CallsOf(keys: seq<string>): seq<Call> {
    if keys == [] then [] else [Call(keys[0], 0.0)] + CallsOf(keys[1..])
  }

  ghost predicate Different(keys: seq<string>) {
    forall i, j :: 0 <= i < j < |keys| ==> keys[i] != keys[j]
  }

  ghost function ToSet(keys: seq<string>): set<string> { set k | k in keys }

  /** While `key` is stored, everything called since stands behind it. */
  lemma {:induction false} OthersStandBehind(rate: Rate, maxKeys: nat, s: seq<Entry<string, Bucket>>, keys: seq<string>, key: string)
    requires Distinct(s) && key !in keys
    ensures var s' := StoreRun(rate, maxKeys, s, CallsOf(keys));
            && Distinct(s')
            && (key in Keys(s') ==> key in Keys(s) && Keys(Behind(s, key)) + ToSet(keys) <= Keys(Behind(s', key)))
            && (keys != [] ==> |s'| <= maxKeys)
    decreases keys
  {
    if keys != [] {
      hide StoreAfter;
      var c, rest := Call(keys[0], 0.0), keys[1..];
      var mid := StoreAfter(rate, maxKeys, s, c);
      AfterKeepsDistinct(rate, maxKeys, s, c, key);
      assert CallsOf(keys)[1..] == CallsOf(rest);
      OthersStandBehind(rate, maxKeys, mid, rest, key);
      if key in Keys(StoreRun(rate, maxKeys, s, CallsOf(keys))) {
        OtherCallBehind(rate, maxKeys, s, c, key);
        assert ToSet(keys) == ToSet(rest) + {keys[0]};
      }
      if rest == [] {
        assert StoreRun(rate, maxKeys, s, CallsOf(keys)) == mid;
      }
    }
  }

  lemma {:induction false} DifferentSize(keys: seq<string>)
    requires Different(keys)
    ensures |ToSet(keys)| == |keys|
  {
    if keys != [] {
      DifferentSize(keys[1..]);
      assert ToSet(keys) == ToSet(keys[1..]) + {keys[0]};
    }
  }

  /** As many other keys as the store may hold push `key` out. */
  lemma OthersPushOut(rate: Rate, maxKeys: nat, s: seq<Entry<string, Bucket>>, keys: seq<string>, key: string)
    requires Distinct(s) && key !in keys && Different(keys) && |keys| >= maxKeys && (keys == [] ==> |s| <= maxKeys)
    ensures key !in Keys(StoreRun(rate, maxKeys, s, CallsOf(keys)))
    ensures Distinct(StoreRun(rate, maxKeys, s, CallsOf(keys)))
  {
    var s' := StoreRun(rate, maxKeys, s, CallsOf(keys));
    OthersStandBehind(rate, maxKeys, s, keys, key);
    DifferentSize(keys);
    if key in Keys(s') {
      BehindFacts(s', key);
      KeysSize(Behind(s', key));
      SubsetSize(ToSet(keys), Keys(Behind(s', key)));
    }
  }

  // ----- the theorem

  ghost predicate WithinBound(rate: Rate, maxKeys: nat, calls: seq<Call>, key: string, s: real, e: real) {
    && |RepliesTo(rate, maxKeys, [], calls, key)| == |TimesOf(calls, key)|
    && CountOk(RepliesTo(rate, maxKeys, [], calls, key), TimesOf(calls, key), s, e) as real <= rate.capacity as real + Gain(rate, s, e)
  }

  /** Every call sequence over the keys, under a nondecreasing clock, keeps the window bound of `key`. */
  ghost predicate LimitHolds(rate: Rate, maxKeys: nat, keys: set<string>, key: string) {
    forall t, calls, s, e :: CallClock(t, calls) && CalledKeys(calls) <= keys && s <= e ==> WithinBound(rate, maxKeys, calls, key, s, e)
  }

  lemma {:induction false} KeysInOrder(keys: set<string>) returns (ks: seq<string>)
    ensures Different(ks) && ToSet(ks) == keys && |ks| == |keys|
  {
    if keys == {} {
      ks := [];
    } else {
      var k :| k in keys;
      var rest := KeysInOrder(keys - {k});
      assert forall x :: x in rest <==> x in ToSet(rest);
      ks := [k] + rest;
      assert ToSet(ks) == keys;
    }
  }

  lemma {:induction false} CallsAtZero(calls: seq<Call>)
    requires forall i :: 0 <= i < |calls| ==> calls[i].now == 0.0
    ensures CallClock(0.0, calls)
  {
    if calls != [] {
      CallsAtZero(calls[1..]);
    }
  }

  lemma {:induction false} TimesAtZero(calls: seq<Call>, key: string)
    requires forall i :: 0 <= i < |calls| ==> calls[i].now == 0.0
    ensures forall i :: 0 <= i < |TimesOf(calls, key)| ==> TimesOf(calls, key)[i] == 0.0
  {
    if calls != [] {
      TimesAtZero(calls[1..], key);
    }
  }

  lemma {:induction false} AllCounted(replies: seq<Reply>, times: seq<real>)
    requires |replies| == |times| && AllOk(replies) && forall i :: 0 <= i < |times| ==> times[i] == 0.0
    ensures CountOk(replies, times, 0.0, 0.0) == |replies|
  {
    if replies != [] {
      AllCounted(replies[1..], times[1..]);
    }
  }

  lemma {:induction false} BurstCalls(key: string, n: nat)
    ensures CalledKeys(Burst(key, n)) <= {key}
    ensures forall i :: 0 <= i < |Burst(key, n)| ==> Burst(key, n)[i].now == 0.0
  {
    if n > 0 {
      BurstCalls(key, n - 1);
    }
  }

  lemma {:induction false} OtherCalls(rate: Rate, maxKeys: nat, s: seq<Entry<string, Bucket>>, keys: seq<string>, key: string)
    requires key !in keys
    ensures CalledKeys(CallsOf(keys)) == ToSet(keys)
    ensures forall i :: 0 <= i < |CallsOf(keys)| ==> CallsOf(keys)[i].now == 0.0
    ensures RepliesTo(rate, maxKeys, s, CallsOf(keys), key) == []
    decreases keys
  {
    if keys != [] {
      hide StoreAfter;
      assert CallsOf(keys)[1..] == CallsOf(keys[1..]);
      OtherCalls(rate, maxKeys, StoreAfter(rate, maxKeys, s, Call(keys[0], 0.0)), keys[1..], key);
      assert ToSet(keys) == {keys[0]} + ToSet(keys[1..]);
    }
  }

  lemma {:induction false} CalledConcat(a: seq<Call>, b: seq<Call>)
    ensures CalledKeys(a + b) == CalledKeys(a) + CalledKeys(b)
  {
    if a == [] {
      assert a + b == b;
    } else {
      assert (a + b)[1..] == a[1..] + b;
      CalledConcat(a[1..], b);
    }
  }

  lemma FullBucketAdmits(rate: Rate, maxKeys: nat, s: seq<Entry<string, Bucket>>, key: string)
    requires rate.capacity >= 1 && key !in Keys(s)
    ensures var replies := RepliesTo(rate, maxKeys, s, [Call(key, 0.0)], key); |replies| == 1 && AllOk(replies)
  {
    FindInKeys(s, key);
    assert |[Call(key, 0.0)][1..]| == 0;
  }

  /** Drain the key, call the others, and call it again: one admission too many at one instant. */
  lemma OneTooMany(rate: Rate, maxKeys: nat, key: string, others: seq<string>) returns (calls: seq<Call>)
    requires rate.capacity >= 1 && rate.refill >= 0.0 && key !in others && Different(others) && |others| >= maxKeys
    ensures CallClock(0.0, calls) && CalledKeys(calls) == {key} + ToSet(others)
    ensures |RepliesTo(rate, maxKeys, [], calls, key)| == |TimesOf(calls, key)|
    ensures CountOk(RepliesTo(rate, maxKeys, [], calls, key), TimesOf(calls, key), 0.0, 0.0) == rate.capacity + 1
  {
    hide RepliesTo, StoreRun, CallClock, CalledKeys, TimesOf, CountOk;
    var n: nat := rate.capacity;
    var burst, last := Burst(key, n), [Call(key, 0.0)];
    EmptyStore(rate, key);
    BurstIsAdmitted(rate, maxKeys, [], key, n);
    BurstCalls(key, n);
    var s1 := StoreRun(rate, maxKeys, [], burst);
    StoreFits(rate, maxKeys, [], burst);
    OtherCalls(rate, maxKeys, s1, others, key);
    OthersPushOut(rate, maxKeys, s1, others, key);
    var s2 := StoreRun(rate, maxKeys, s1, CallsOf(others));
    FullBucketAdmits(rate, maxKeys, s2, key);
    calls := burst + (CallsOf(others) + last);
    RepliesSplit(rate, maxKeys, [], burst, CallsOf(others) + last, key);
    RepliesSplit(rate, maxKeys, s1, CallsOf(others), last, key);
    OneReplyPerTime(rate, maxKeys, [], calls, key);
    CallsAtZero(calls);
    TimesAtZero(calls, key);
    AllCounted(RepliesTo(rate, maxKeys, [], calls, key), TimesOf(calls, key));
    CalledConcat(burst, CallsOf(others) + last);
    CalledConcat(CallsOf(others), last);
    CalledOnce(key, n);
  }

  lemma EmptyStore(rate: Rate, key: string)
    ensures Level(rate, Find<string, Bucket>([], key), 0.0) == rate.capacity as real
    ensures Distinct<string, Bucket>([])
  {}

  lemma CalledOnce(key: string, n: nat)
    requires n > 0
    ensures CalledKeys(Burst(key, n)) == {key} && CalledKeys([Call(key, 0.0)]) == {key}
  {
    BurstCalls(key, n);
    assert CalledKeys([Call(key, 0.0)][1..]) == {};
  }

  lemma {:induction false} StoreFits(rate: Rate, maxKeys: nat, s: seq<Entry<string, Bucket>>, calls: seq<Call>)
    requires Distinct(s) && |s| <= maxKeys
    ensures Distinct(StoreRun(rate, maxKeys, s, calls)) && |StoreRun(rate, maxKeys, s, calls)| <= maxKeys
    decreases calls
  {
    if calls != [] {
      hide StoreAfter;
      AfterKeepsDistinct(rate, maxKeys, s, calls[0], calls[0].key);
      StoreFits(rate, maxKeys, StoreAfter(rate, maxKeys, s, calls[0]), calls[1..]);
    }
  }

  /** Over a set of keys every call sequence keeps a key's rate limit exactly if the store can hold all of them. */
  lemma LimitHoldsIff(rate: Rate, maxKeys: nat, keys: set<string>, key: string)
    requires rate.capacity >= 1 && rate.refill >= 0.0 && key in keys
    ensures LimitHolds(rate, maxKeys, keys, key) <==> |keys| <= maxKeys
  {
    hide RepliesTo, CallClock, CalledKeys, TimesOf, CountOk;
    if |keys| <= maxKeys {
      forall t, calls, s, e | CallClock(t, calls) && CalledKeys(calls) <= keys && s <= e
        ensures WithinBound(rate, maxKeys, calls, key, s, e)
      {
        BoundOverKeys(rate, maxKeys, keys, calls, t, key, s, e);
      }
    } else {
      var others := KeysInOrder(keys - {key});
      assert key in others ==> key in ToSet(others);
      var calls := OneTooMany(rate, maxKeys, key, others);
      assert !WithinBound(rate, maxKeys, calls, key, 0.0, 0.0);
    }
  }

  lemma BoundOverKeys(rate: Rate, maxKeys: nat, keys: set<string>, calls: seq<Call>, t: real, key: string, s: real, e: real)
    requires rate.capacity >= 1 && rate.refill >= 0.0 && s <= e && CallClock(t, calls) && CalledKeys(calls) <= keys && |keys| <= maxKeys
    ensures WithinBound(rate, maxKeys, calls, key, s, e)
  {
    var none: seq<Entry<string, Bucket>> := [];
    assert Keys(none) + CalledKeys(calls) == CalledKeys(calls);
    SubsetSize(CalledKeys(calls), keys);
    KeptWhileKeysFit(rate, maxKeys, none, calls, key);
    KeyedRateBound(rate, maxKeys, calls, t, key, s, e);
  }
}
