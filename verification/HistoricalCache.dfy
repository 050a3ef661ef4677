/** The in-process LRU cache of historical frames (engine/data/historical_cache.py). */
module HistoricalCache {
  import opened Wrappers
  import opened OrderedDict

  /** A loaded frame: its row count, its estimated size and its contents. */
  datatype Frame = Frame(height: nat, bytes: nat, content: int)

  datatype Limits = Limits(maxEntries: nat, maxEntryBytes: nat)

  /** The fields of the cache as one value. */
  datatype Cache = Cache(
    store: seq<Entry<string, Frame>>,
    sizes: map<string, nat>,
    hits: nat,
    misses: nat,
    evictions: nat)

  datatype Stats = Stats(hits: nat, misses: nat, evictions: nat, entries: nat, sizeBytes: nat)

  datatype Error = NonPositiveLimit

  const EMPTY := Cache([], map[], 0, 0, 0)

  // ----- what each call does to the fields

  function AfterGet(c: Cache, key: string): Cache {
    if Find(c.store, key).None? then c.(misses := c.misses + 1)
    else c.(store := MoveToEnd(c.store, key), hits := c.hits + 1)
  }

  /** Whether put stores the frame at all. */
  predicate Accepts(lim: Limits, df: Option<Frame>) {
    df.Some? && df.value.height > 0 && df.value.bytes <= lim.maxEntryBytes
  }

  function PopOldest(c: Cache): Cache
    requires c.store != []
  {
    c.(store := c.store[1..], sizes := c.sizes - {c.store[0].key}, evictions := c.evictions + 1)
  }

  function Evict(lim: Limits, c: Cache): Cache
    decreases |c.store|
  {
    if |c.store| <= lim.maxEntries then c else Evict(lim, PopOldest(c))
  }

  function Inserted(c: Cache, key: string, f: Frame): Cache {
    c.(store := Without(c.store, key) + [Entry(key, f)], sizes := c.sizes[key := f.bytes])
  }

  function AfterPut(lim: Limits, c: Cache, key: string, df: Option<Frame>): Cache {
    if Accepts(lim, df) then Evict(lim, Inserted(c, key, df.value)) else c
  }

  function AfterInvalidate(c: Cache, key: string): Cache {
    c.(store := Without(c.store, key), sizes := c.sizes - {key})
  }

  // ----- whole runs

  datatype Op = Get(key: string) | Put(key: string, df: Option<Frame>) | Invalidate(key: string) | Clear

  function Apply(lim: Limits, c: Cache, op: Op): Cache {
    match op
    case Get(key) => AfterGet(c, key)
    case Put(key, df) => AfterPut(lim, c, key, df)
    case Invalidate(key) => AfterInvalidate(c, key)
    case Clear => EMPTY
  }

  /** The cache after the calls of `ops`, starting empty. */
  function Run(lim: Limits, ops: seq<Op>): Cache {
    if ops == [] then EMPTY
    else Apply(lim, Run(lim, ops[..|ops| - 1]), ops[|ops| - 1])
  }

  // ----- the invariant of every run

  ghost predicate Consistent(lim: Limits, c: Cache) {
    |c.store| <= lim.maxEntries && ConsistentBeforeEviction(lim, c)
  }

  /** Consistent, except that too many entries may be stored. */
  ghost predicate ConsistentBeforeEviction(lim: Limits, c: Cache) {
    && Distinct(c.store)
    && c.sizes.Keys == Keys(c.store)
    && forall e :: e in c.store ==> e.key in c.sizes && c.sizes[e.key] == e.value.bytes && Accepts(lim, Some(e.value))
  }

  lemma {:induction false} EvictConsistent(lim: Limits, c: Cache)
    requires ConsistentBeforeEviction(lim, c)
    ensures Consistent(lim, Evict(lim, c))
    ensures Evict(lim, c).store == if |c.store| <= lim.maxEntries then c.store else c.store[|c.store| - lim.maxEntries..]
    ensures Evict(lim, c).evictions == c.evictions + if |c.store| <= lim.maxEntries then 0 else |c.store| - lim.maxEntries
    ensures Evict(lim, c).hits == c.hits && Evict(lim, c).misses == c.misses
    decreases |c.store|
  {
    forall e | e in c.store
      ensures e.key in Keys(c.store)
    {
      EntryInKeys(c.store, e);
    }
    if |c.store| > lim.maxEntries {
      forall e | e in c.store[1..]
        ensures e.key in Keys(c.store[1..])
      {
        EntryInKeys(c.store[1..], e);
      }
      EvictConsistent(lim, PopOldest(c));
    }
  }

  lemma InsertedConsistent(lim: Limits, c: Cache, key: string, f: Frame)
    requires Consistent(lim, c) && Accepts(lim, Some(f))
    ensures ConsistentBeforeEviction(lim, Inserted(c, key, f))
    ensures |Inserted(c, key, f).store| == if key in Keys(c.store) then |c.store| else |c.store| + 1
  {
    WithoutFacts(c.store, key);
    RefreshFacts(c.store, key, f);
    forall e | e in c.store
      ensures e.key in Keys(c.store)
    {
      EntryInKeys(c.store, e);
    }
  }

  lemma EntriesHaveKeys(s: seq<Entry<string, Frame>>)
    ensures forall e :: e in s ==> e.key in Keys(s)
  {
    forall e | e in s
      ensures e.key in Keys(s)
    {
      EntryInKeys(s, e);
    }
  }

  lemma GetConsistent(lim: Limits, c: Cache, key: string)
    requires Consistent(lim, c)
    ensures Consistent(lim, AfterGet(c, key))
  {
    hide Find, Without;
    FindInKeys(c.store, key);
    if Find(c.store, key).Some? {
      WithoutFacts(c.store, key);
      RefreshFacts(c.store, key, Find(c.store, key).value);
    }
  }

  lemma InvalidateConsistent(lim: Limits, c: Cache, key: string)
    requires Consistent(lim, c)
    ensures Consistent(lim, AfterInvalidate(c, key))
  {
    hide Find, Without;
    EntriesHaveKeys(Without(c.store, key));
    WithoutFacts(c.store, key);
  }

  lemma ApplyConsistent(lim: Limits, c: Cache, op: Op)
    requires Consistent(lim, c)
    ensures Consistent(lim, Apply(lim, c, op))
  {
    match op
    case Get(key) => GetConsistent(lim, c, key);
    case Put(key, df) =>
      if Accepts(lim, df) {
        InsertedConsistent(lim, c, key, df.value);
        EvictConsistent(lim, Inserted(c, key, df.value));
      }
    case Invalidate(key) => InvalidateConsistent(lim, c, key);
    case Clear =>
  }

  /** Every run keeps the order, the size map and the bound together. */
  lemma {:induction false} RunConsistent(lim: Limits, ops: seq<Op>)
    ensures Consistent(lim, Run(lim, ops))
  {
    if ops != [] {
      RunConsistent(lim, ops[..|ops| - 1]);
      ApplyConsistent(lim, Run(lim, ops[..|ops| - 1]), ops[|ops| - 1]);
    }
  }

  // ----- the counters

  /** Since the last clear: gets, accepted puts of new keys, and keys that invalidate dropped. */
  datatype Traffic = Traffic(gets: nat, added: nat, dropped: nat)

  function TrafficOf(lim: Limits, ops: seq<Op>): Traffic {
    if ops == [] then Traffic(0, 0, 0)
    else
      var t, c := TrafficOf(lim, ops[..|ops| - 1]), Run(lim, ops[..|ops| - 1]);
      match ops[|ops| - 1]
      case Get(_) => t.(gets := t.gets + 1)
      case Put(key, df) => if Accepts(lim, df) && key !in Keys(c.store) then t.(added := t.added + 1) else t
      case Invalidate(key) => if key in Keys(c.store) then t.(dropped := t.dropped + 1) else t
      case Clear => Traffic(0, 0, 0)
  }

  lemma MoveKeepsSize(d: seq<Entry<string, Frame>>, key: string)
    requires Distinct(d)
    ensures |MoveToEnd(d, key)| == |d|
  {
    FindInKeys(d, key);
    WithoutFacts(d, key);
  }

  /** Every get is a hit or a miss, and every frame that came in is stored, evicted or invalidated. */
  lemma {:induction false} CountersBalance(lim: Limits, ops: seq<Op>)
    ensures var c, t := Run(lim, ops), TrafficOf(lim, ops);
            c.hits + c.misses == t.gets && |c.store| + c.evictions + t.dropped == t.added
  {
    if ops != [] {
      var c, op := Run(lim, ops[..|ops| - 1]), ops[|ops| - 1];
      CountersBalance(lim, ops[..|ops| - 1]);
      RunConsistent(lim, ops[..|ops| - 1]);
      match op
      case Get(key) =>
        MoveKeepsSize(c.store, key);
      case Put(key, df) =>
        if Accepts(lim, df) {
          InsertedConsistent(lim, c, key, df.value);
          EvictConsistent(lim, Inserted(c, key, df.value));
        }
      case Invalidate(key) =>
        WithoutFacts(c.store, key);
      case Clear =>
    }
  }

  // ----- a hit returns the last accepted put

  /** The frame of the last accepted put of `key` not undone by invalidate or clear. */
  function LastAccepted(lim: Limits, ops: seq<Op>, key: string): Option<Frame> {
    if ops == [] then None
    else
      var op := ops[|ops| - 1];
      var before := LastAccepted(lim, ops[..|ops| - 1], key);
      match op
      case Get(_) => before
      case Put(k, df) => if k == key && Accepts(lim, df) then df else before
      case Invalidate(k) => if k == key then None else before
      case Clear => None
  }

  lemma {:induction false} EvictFind(lim: Limits, c: Cache, key: string)
    requires Distinct(c.store)
    ensures Find(Evict(lim, c).store, key).Some? ==> Find(Evict(lim, c).store, key) == Find(c.store, key)
    decreases |c.store|
  {
    if |c.store| > lim.maxEntries {
      EvictFind(lim, PopOldest(c), key);
      FindInKeys(c.store[1..], key);
    }
  }

  lemma {:induction false} HitReturnsLastAccepted(lim: Limits, ops: seq<Op>, key: string)
    ensures Find(Run(lim, ops).store, key).Some? ==> Find(Run(lim, ops).store, key) == LastAccepted(lim, ops, key)
  {
    if ops != [] {
      var c := Run(lim, ops[..|ops| - 1]);
      RunConsistent(lim, ops[..|ops| - 1]);
      HitReturnsLastAccepted(lim, ops[..|ops| - 1], key);
      match ops[|ops| - 1]
      case Get(k) =>
        if Find(c.store, k).Some? {
          RefreshFacts(c.store, k, Find(c.store, k).value);
        }
      case Put(k, df) =>
        if Accepts(lim, df) {
          RefreshFacts(c.store, k, df.value);
          EvictFind(lim, Inserted(c, k, df.value), key);
        }
      case Invalidate(k) =>
        WithoutFacts(c.store, k);
      case Clear =>
    }
  }

  /** Every key that some call of the run names. */
  function NamedKeys(ops: seq<Op>): set<string> {
    if ops == [] then {}
    else NamedKeys(ops[..|ops| - 1]) + (match ops[|ops| - 1] case Clear => {} case op => {op.key})
  }

  lemma ExactPut(lim: Limits, c: Cache, key: string, f: Frame, named: set<string>)
    requires Consistent(lim, c) && Accepts(lim, Some(f))
    requires Keys(c.store) + {key} <= named && |named| <= lim.maxEntries
    ensures AfterPut(lim, c, key, Some(f)) == Inserted(c, key, f)
  {
    RefreshFacts(c.store, key, f);
    KeysSize(Inserted(c, key, f).store);
    SubsetSize(Keys(Inserted(c, key, f).store), named);
  }

  lemma {:induction false} NoEvictionWhileKeysFit(lim: Limits, ops: seq<Op>)
    requires |NamedKeys(ops)| <= lim.maxEntries
    ensures Keys(Run(lim, ops).store) <= NamedKeys(ops)
    ensures Run(lim, ops).evictions == 0
  {
    if ops != [] {
      var init := ops[..|ops| - 1];
      var c := Run(lim, init);
      SubsetSize(NamedKeys(init), NamedKeys(ops));
      NoEvictionWhileKeysFit(lim, init);
      RunConsistent(lim, init);
      StepKeys(lim, c, ops[|ops| - 1], NamedKeys(ops));
    }
  }

  lemma StepKeys(lim: Limits, c: Cache, op: Op, named: set<string>)
    requires Consistent(lim, c) && Keys(c.store) <= named && |named| <= lim.maxEntries
    requires op != Clear ==> op.key in named
    ensures Keys(Apply(lim, c, op).store) <= named
    ensures Apply(lim, c, op).evictions <= c.evictions
  {
    match op
    case Get(k) =>
      if Find(c.store, k).Some? {
        RefreshFacts(c.store, k, Find(c.store, k).value);
      }
    case Put(k, df) =>
      if Accepts(lim, df) {
        RefreshFacts(c.store, k, df.value);
        ExactPut(lim, c, k, df.value, named);
      }
    case Invalidate(k) =>
      WithoutFacts(c.store, k);
    case Clear =>
  }

  /** While a run names no more keys than the bound, the cache forgets nothing. */
  lemma {:induction false} ExactWhileKeysFit(lim: Limits, ops: seq<Op>, key: string)
    requires |NamedKeys(ops)| <= lim.maxEntries
    ensures Find(Run(lim, ops).store, key) == LastAccepted(lim, ops, key)
  {
    if ops != [] {
      var init := ops[..|ops| - 1];
      var c := Run(lim, init);
      SubsetSize(NamedKeys(init), NamedKeys(ops));
      ExactWhileKeysFit(lim, init, key);
      NoEvictionWhileKeysFit(lim, init);
      RunConsistent(lim, init);
      StepFind(lim, c, ops[|ops| - 1], NamedKeys(ops), key);
    }
  }

  /** What one call that evicts nothing does to the entry of `key`. */
  lemma StepFind(lim: Limits, c: Cache, op: Op, named: set<string>, key: string)
    requires Consistent(lim, c) && Keys(c.store) <= named && |named| <= lim.maxEntries
    requires op != Clear ==> op.key in named
    ensures Find(Apply(lim, c, op).store, key) ==
            match op
            case Get(_) => Find(c.store, key)
            case Put(k, df) => if k == key && Accepts(lim, df) then df else Find(c.store, key)
            case Invalidate(k) => if k == key then None else Find(c.store, key)
            case Clear => None
  {
    match op
    case Get(k) =>
      if Find(c.store, k).Some? {
        RefreshFacts(c.store, k, Find(c.store, k).value);
      }
    case Put(k, df) =>
      if Accepts(lim, df) {
        RefreshFacts(c.store, k, df.value);
        ExactPut(lim, c, k, df.value, named);
      }
    case Invalidate(k) =>
      WithoutFacts(c.store, k);
    case Clear =>
  }

  // ----- the store is ordered by recency of use

  /** The position of the last accepted put or hitting get of `key`, or -1. */
  function LastUse(lim: Limits, ops: seq<Op>, key: string): int {
    if ops == [] then -1
    else
      var init := ops[..|ops| - 1];
      match ops[|ops| - 1]
      case Get(k) =>
        if k == key && Find(Run(lim, init).store, key).Some? then |init| else LastUse(lim, init, key)
      case Put(k, df) =>
        if k == key && Accepts(lim, df) then |init| else LastUse(lim, init, key)
      case _ => LastUse(lim, init, key)
  }

  ghost predicate OrderedBy(use: string -> int, s: seq<Entry<string, Frame>>) {
    forall i, j :: 0 <= i < j < |s| ==> use(s[i].key) < use(s[j].key)
  }

  ghost function UseIn(lim: Limits, ops: seq<Op>): string -> int {
    key => LastUse(lim, ops, key)
  }

  lemma {:induction false} LastUseBound(lim: Limits, ops: seq<Op>, key: string)
    ensures LastUse(lim, ops, key) < |ops|
  {
    if ops != [] {
      LastUseBound(lim, ops[..|ops| - 1], key);
    }
  }

  lemma {:induction false} WithoutOrdered(use: string -> int, s: seq<Entry<string, Frame>>, key: string)
    requires OrderedBy(use, s)
    ensures OrderedBy(use, Without(s, key))
  {
    if s != [] {
      WithoutOrdered(use, s[1..], key);
      WithoutMembers(s[1..], key);
      var w := Without(s[1..], key);
      forall e | e in w
        ensures use(s[0].key) < use(e.key)
      {
        var i :| 1 <= i < |s| && s[i] == e;
      }
    }
  }

  lemma RefreshOrdered(use: string -> int, use': string -> int, s: seq<Entry<string, Frame>>, key: string, f: Frame)
    requires OrderedBy(use, s)
    requires forall k :: k != key ==> use'(k) == use(k) < use'(key)
    ensures OrderedBy(use', Without(s, key) + [Entry(key, f)])
  {
    WithoutOrdered(use, s, key);
    WithoutMembers(s, key);
    var w := Without(s, key);
    forall i | 0 <= i < |w|
      ensures w[i].key != key
    {
      assert w[i] in w;
    }
  }

  lemma OrderedSuffix(use: string -> int, use': string -> int, s: seq<Entry<string, Frame>>, k: nat)
    requires OrderedBy(use, s) && k <= |s| && forall x :: use'(x) == use(x)
    ensures OrderedBy(use', s[k..])
  {}

  /** So does storing a frame, with what is evicted after it. */
  lemma StoredOrdered(lim: Limits, c: Cache, use: string -> int, use': string -> int, k: string, f: Frame)
    requires Consistent(lim, c) && Accepts(lim, Some(f))
    requires OrderedBy(use, c.store) && forall x :: x != k ==> use'(x) == use(x) < use'(k)
    ensures OrderedBy(use', Evict(lim, Inserted(c, k, f)).store)
  {
    hide OrderedBy, Evict, Without;
    RefreshOrdered(use, use', c.store, k, f);
    InsertedConsistent(lim, c, k, f);
    EvictConsistent(lim, Inserted(c, k, f));
    var store := Inserted(c, k, f).store;
    OrderedSuffix(use', use', store, if |store| <= lim.maxEntries then 0 else |store| - lim.maxEntries);
  }

  /** One call keeps the store ordered by last use. */
  lemma OrderedStep(lim: Limits, init: seq<Op>, op: Op, use: string -> int, use': string -> int)
    requires use == UseIn(lim, init) && use' == UseIn(lim, init + [op]) && OrderedBy(use, Run(lim, init).store)
    requires forall k :: use(k) < |init|
    ensures OrderedBy(use', Apply(lim, Run(lim, init), op).store)
  {
    var c := Run(lim, init);
    assert (init + [op])[..|init|] == init;
    RunConsistent(lim, init);
    hide OrderedBy, Run, Evict, Without, Find;
    match op
    case Get(k) =>
      if Find(c.store, k).Some? {
        RefreshOrdered(use, use', c.store, k, Find(c.store, k).value);
      } else {
        OrderedSuffix(use, use', c.store, 0);
      }
    case Put(k, df) =>
      if Accepts(lim, df) {
        StoredOrdered(lim, c, use, use', k, df.value);
      } else {
        OrderedSuffix(use, use', c.store, 0);
      }
    case Invalidate(k) =>
      WithoutOrdered(use, c.store, k);
      OrderedSuffix(use, use', Without(c.store, k), 0);
    case Clear =>
      NothingOrdered(use');
  }

  lemma NothingOrdered(use: string -> int)
    ensures OrderedBy(use, EMPTY.store)
  {}

  /** The store lists its keys by last use, so eviction takes the least recently used key. */
  lemma {:induction false} StoreOrderedByUse(lim: Limits, ops: seq<Op>)
    ensures OrderedBy(UseIn(lim, ops), Run(lim, ops).store)
  {
    if ops == [] {
      NothingOrdered(UseIn(lim, ops));
    } else {
      hide OrderedBy, Apply;
      var init, op := ops[..|ops| - 1], ops[|ops| - 1];
      StoreOrderedByUse(lim, init);
      forall k
        ensures UseIn(lim, init)(k) < |init|
      {
        LastUseBound(lim, init, k);
      }
      assert ops == init + [op];
      OrderedStep(lim, init, op, UseIn(lim, init), UseIn(lim, ops));
    }
  }

  // ----- inclusion: a larger cache never misses where a smaller one hits

  ghost predicate Subsequence<T>(a: seq<T>, b: seq<T>) {
    a == [] || (b != [] && ((a[0] == b[0] && Subsequence(a[1..], b[1..])) || Subsequence(a, b[1..])))
  }

  lemma {:induction false} SubsequenceDrop<T>(a: seq<T>, b: seq<T>)
    requires a != [] && Subsequence(a, b)
    ensures Subsequence(a[1..], b)
  {
    if a[0] == b[0] && Subsequence(a[1..], b[1..]) {
      if a[1..] != [] {}
    } else {
      SubsequenceDrop(a, b[1..]);
    }
  }

  lemma {:induction false} SubsequenceIn<T>(a: seq<T>, b: seq<T>)
    requires Subsequence(a, b)
    ensures forall x :: x in a ==> x in b
    ensures |a| <= |b|
  {
    if a != [] {
      if a[0] == b[0] && Subsequence(a[1..], b[1..]) {
        SubsequenceIn(a[1..], b[1..]);
        assert forall x :: x in a ==> x == a[0] || x in a[1..];
      } else {
        SubsequenceIn(a, b[1..]);
      }
    }
  }

  lemma {:induction false} SubsequenceAppend<T>(a: seq<T>, b: seq<T>, x: T)
    requires Subsequence(a, b)
    ensures Subsequence(a + [x], b + [x])
    ensures Subsequence(a, b + [x])
  {
    if b == [] {
      assert (a + [x])[1..] == [];
    } else {
      assert (b + [x])[1..] == b[1..] + [x];
      if a == [] {
        SubsequenceAppend([], b[1..], x);
      } else if a[0] == b[0] && Subsequence(a[1..], b[1..]) {
        SubsequenceAppend(a[1..], b[1..], x);
        assert (a + [x])[1..] == a[1..] + [x];
      } else {
        SubsequenceAppend(a, b[1..], x);
      }
    }
  }

  lemma {:induction false} SubsequenceWithout<K, V>(a: seq<Entry<K, V>>, b: seq<Entry<K, V>>, k: K)
    requires Subsequence(a, b)
    ensures Subsequence(Without(a, k), Without(b, k))
  {
    if a != [] {
      if a[0] == b[0] && Subsequence(a[1..], b[1..]) {
        SubsequenceWithout(a[1..], b[1..], k);
        if a[0].key != k {
          assert Without(a, k)[1..] == Without(a[1..], k);
          assert Without(b, k)[1..] == Without(b[1..], k);
        }
      } else {
        SubsequenceWithout(a, b[1..], k);
        if b[0].key != k {
          assert Without(b, k)[1..] == Without(b[1..], k);
        }
      }
    }
  }

  /** The simulation between a cache bounded by k entries and one bounded by m >= k. */
  ghost predicate Included(k: nat, m: nat, maxBytes: nat, small: Cache, large: Cache) {
    && Consistent(Limits(k, maxBytes), small)
    && Consistent(Limits(m, maxBytes), large)
    && Subsequence(small.store, large.store)
    && |large.store| - |small.store| <= m - k
    && small.hits <= large.hits
    && small.hits + small.misses == large.hits + large.misses
  }

  lemma IncludedFind(k: nat, m: nat, maxBytes: nat, small: Cache, large: Cache, key: string)
    requires Included(k, m, maxBytes, small, large)
    ensures Find(small.store, key).Some? ==> Find(large.store, key) == Find(small.store, key)
  {
    if Find(small.store, key).Some? {
      FindInKeys(small.store, key);
      SubsequenceIn(small.store, large.store);
      EntryInKeys(large.store, Entry(key, Find(small.store, key).value));
    }
  }

  lemma IncludedPut(k: nat, m: nat, maxBytes: nat, small: Cache, large: Cache, key: string, f: Frame)
    requires k <= m && Included(k, m, maxBytes, small, large) && Accepts(Limits(k, maxBytes), Some(f))
    ensures Included(k, m, maxBytes,
                     AfterPut(Limits(k, maxBytes), small, key, Some(f)),
                     AfterPut(Limits(m, maxBytes), large, key, Some(f)))
  {
    var s, l := Inserted(small, key, f), Inserted(large, key, f);
    InsertedConsistent(Limits(k, maxBytes), small, key, f);
    InsertedConsistent(Limits(m, maxBytes), large, key, f);
    SubsequenceWithout(small.store, large.store, key);
    SubsequenceAppend(Without(small.store, key), Without(large.store, key), Entry(key, f));
    EvictConsistent(Limits(k, maxBytes), s);
    EvictConsistent(Limits(m, maxBytes), l);
    IncludedFind(k, m, maxBytes, small, large, key);
    FindInKeys(small.store, key);
    FindInKeys(large.store, key);
    // The large cache evicts only when the small one does, and then its oldest
    // entry is either absent from the small cache or the small one's oldest too.
    if |s.store| > k {
      SubsequenceDrop(s.store, l.store);
      if |l.store| > m {
        if s.store[0] == l.store[0] && Subsequence(s.store[1..], l.store[1..]) {
        } else {
          SubsequenceDrop(s.store, l.store[1..]);
        }
      }
    }
  }

  lemma IncludedStep(k: nat, m: nat, maxBytes: nat, small: Cache, large: Cache, op: Op)
    requires k <= m && Included(k, m, maxBytes, small, large)
    ensures Included(k, m, maxBytes, Apply(Limits(k, maxBytes), small, op), Apply(Limits(m, maxBytes), large, op))
  {
    ApplyConsistent(Limits(k, maxBytes), small, op);
    ApplyConsistent(Limits(m, maxBytes), large, op);
    match op
    case Get(key) =>
      IncludedFind(k, m, maxBytes, small, large, key);
      FindInKeys(small.store, key);
      FindInKeys(large.store, key);
      WithoutFacts(small.store, key);
      WithoutFacts(large.store, key);
      SubsequenceWithout(small.store, large.store, key);
      if Find(large.store, key).Some? {
        SubsequenceAppend(Without(small.store, key), Without(large.store, key), Entry(key, Find(large.store, key).value));
      }
    case Put(key, df) =>
      if Accepts(Limits(k, maxBytes), df) {
        IncludedPut(k, m, maxBytes, small, large, key, df.value);
      }
    case Invalidate(key) =>
      WithoutFacts(small.store, key);
      WithoutFacts(large.store, key);
      SubsequenceWithout(small.store, large.store, key);
      IncludedFind(k, m, maxBytes, small, large, key);
      FindInKeys(small.store, key);
      FindInKeys(large.store, key);
    case Clear =>
  }

  /** For any one trace, the smaller cache's recency list is a subsequence of the larger's. */
  lemma {:induction false} Inclusion(k: nat, m: nat, maxBytes: nat, ops: seq<Op>)
    requires k <= m
    ensures Included(k, m, maxBytes, Run(Limits(k, maxBytes), ops), Run(Limits(m, maxBytes), ops))
  {
    if ops != [] {
      var init := ops[..|ops| - 1];
      Inclusion(k, m, maxBytes, init);
      IncludedStep(k, m, maxBytes, Run(Limits(k, maxBytes), init), Run(Limits(m, maxBytes), init), ops[|ops| - 1]);
    }
  }

  /** Every hit of the small cache is a hit of the large one, with the same frame. */
  lemma SmallHitIsLargeHit(k: nat, m: nat, maxBytes: nat, ops: seq<Op>, key: string)
    requires k <= m
    requires Find(Run(Limits(k, maxBytes), ops).store, key).Some?
    ensures Find(Run(Limits(m, maxBytes), ops).store, key) == Find(Run(Limits(k, maxBytes), ops).store, key)
  {
    Inclusion(k, m, maxBytes, ops);
    IncludedFind(k, m, maxBytes, Run(Limits(k, maxBytes), ops), Run(Limits(m, maxBytes), ops), key);
  }

  // ----- the counters of stats

  /** `sum(self._sizes.values())`, taken in store order. */
  function SizeBytes(sizes: map<string, nat>, s: seq<Entry<string, Frame>>): nat {
    if s == [] then 0
    else (if s[0].key in sizes then sizes[s[0].key] else 0) + SizeBytes(sizes, s[1..])
  }

  function FrameBytes(s: seq<Entry<string, Frame>>): nat {
    if s == [] then 0 else s[0].value.bytes + FrameBytes(s[1..])
  }

  lemma {:induction false} SizesAreFrameBytes(sizes: map<string, nat>, s: seq<Entry<string, Frame>>)
    requires forall e :: e in s ==> e.key in sizes && sizes[e.key] == e.value.bytes
    ensures SizeBytes(sizes, s) == FrameBytes(s)
  {
    if s != [] {
      assert s[0] in s;
      SizesAreFrameBytes(sizes, s[1..]);
    }
  }

  /** After any run the reported bytes are those of the stored frames, within the two bounds. */
  lemma ReportedBytes(lim: Limits, ops: seq<Op>)
    ensures var c := Run(lim, ops); SizeBytes(c.sizes, c.store) == FrameBytes(c.store) <= lim.maxEntries * lim.maxEntryBytes
  {
    var c := Run(lim, ops);
    RunConsistent(lim, ops);
    forall e | e in c.store
      ensures e.key in c.sizes
    {
      EntryInKeys(c.store, e);
    }
    SizesAreFrameBytes(c.sizes, c.store);
    BytesBound(lim, c.store);
    MultiplyMonotone(|c.store|, lim.maxEntries, lim.maxEntryBytes);
  }

  lemma MultiplyMonotone(a: nat, b: nat, x: nat)
    requires a <= b
    ensures a * x <= b * x
  {}

  lemma {:induction false} BytesBound(lim: Limits, s: seq<Entry<string, Frame>>)
    requires forall e :: e in s ==> Accepts(lim, Some(e.value))
    ensures FrameBytes(s) <= |s| * lim.maxEntryBytes
  {
    if s != [] {
      assert s[0] in s;
      BytesBound(lim, s[1..]);
    }
  }

  // ----- the class itself

  class HistoricalDataCache {
    const lim: Limits
    var store: seq<Entry<string, Frame>>
    var sizes: map<string, nat>
    var hits: nat
    var misses: nat
    var evictions: nat

    ghost function State(): Cache
      reads this
    {
      Cache(store, sizes, hits, misses, evictions)
    }

    ghost predicate Valid()
      reads this
    {
      Consistent(lim, State())
    }

    constructor (lim: Limits)
      ensures this.lim == lim && State() == EMPTY && Valid()
    {
      this.lim := lim;
      store, sizes, hits, misses, evictions := [], map[], 0, 0, 0;
    }

    /** The source's constructor: both limits must be positive. */
    static method Create(maxEntries: int, maxEntryBytes: int) returns (r: Result<HistoricalDataCache, Error>)
      ensures r.Ok? <==> maxEntries > 0 && maxEntryBytes > 0
      ensures r.Ok? ==> fresh(r.value) && r.value.Valid() && r.value.State() == EMPTY
      ensures r.Ok? ==> r.value.lim == Limits(maxEntries, maxEntryBytes)
    {
      if maxEntries <= 0 || maxEntryBytes <= 0 {
        return Err(NonPositiveLimit);
      }
      var c := new HistoricalDataCache(Limits(maxEntries, maxEntryBytes));
      return Ok(c);
    }

    method Get(key: string) returns (r: Option<Frame>)
      requires Valid()
      modifies this
      ensures Valid() && State() == Apply(lim, old(State()), Op.Get(key))
      ensures r == Find(old(store), key)
    {
      ApplyConsistent(lim, State(), Op.Get(key));
      var entry := Find(store, key);
      if entry.None? {
        misses := misses + 1;
        return None;
      }
      store := MoveToEnd(store, key);
      hits := hits + 1;
      return entry;
    }

    method Put(key: string, df: Option<Frame>)
      requires Valid()
      modifies this
      ensures Valid() && State() == Apply(lim, old(State()), Op.Put(key, df))
    {
      ApplyConsistent(lim, State(), Op.Put(key, df));
      if df.None? || df.value.height == 0 {
        return;
      }
      var size := df.value.bytes;
      if size > lim.maxEntryBytes {
        return;
      }
      AssignThenMove(store, key, df.value);
      ghost var inserted := Inserted(State(), key, df.value);
      if Find(store, key).Some? {
        sizes := sizes - {key};
      }
      store := Assign(store, key, df.value);
      sizes := sizes[key := size];
      store := MoveToEnd(store, key);
      assert State() == inserted;
      EvictLocked();
    }

    method EvictLocked()
      modifies this
      ensures State() == Evict(lim, old(State()))
    {
      while |store| > lim.maxEntries
        invariant Evict(lim, State()) == Evict(lim, old(State()))
        decreases |store|
      {
        var evicted := store[0].key;
        store := store[1..];
        sizes := sizes - {evicted};
        evictions := evictions + 1;
      }
    }

    method Invalidate(key: string) returns (dropped: bool)
      requires Valid()
      modifies this
      ensures Valid() && State() == Apply(lim, old(State()), Op.Invalidate(key))
      ensures dropped <==> key in Keys(old(store))
    {
      ApplyConsistent(lim, State(), Op.Invalidate(key));
      FindInKeys(store, key);
      if Find(store, key).None? {
        WithoutFacts(store, key);
        assert sizes - {key} == sizes;
        return false;
      }
      sizes := sizes - {key};
      store := Without(store, key);
      return true;
    }

    method Clear()
      modifies this
      ensures Valid() && State() == Apply(lim, old(State()), Op.Clear)
    {
      store, sizes := [], map[];
      hits, misses, evictions := 0, 0, 0;
    }

    method GetStats() returns (s: Stats)
      requires Valid()
      ensures s == Stats(hits, misses, evictions, |Keys(store)|, FrameBytes(store))
    {
      forall e | e in store
        ensures e.key in sizes
      {
        EntryInKeys(store, e);
      }
      SizesAreFrameBytes(sizes, store);
      KeysSize(store);
      s := Stats(hits, misses, evictions, |store|, SizeBytes(sizes, store));
    }
  }
}
