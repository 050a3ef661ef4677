/**
 What the hit counter of the frame cache counts and what a put makes of the next
 get (engine/data/historical_cache.py), told from the calls and the frames.
 */
module CacheTraffic {
  import opened Wrappers
  import opened OrderedDict
  import opened HistoricalCache

  /** What a get of `key` would return after the calls. */
  ghost function Served(lim: Limits, ops: seq<Op>, key: string): Option<Frame> {
    Find(Run(lim, ops).store, key)
  }

  /** Since the last clear: how many gets returned a frame, and how many did not. */
  ghost function GetsServed(lim: Limits, ops: seq<Op>, some: bool): nat {
    if ops == [] then 0
    else
      var init := ops[..|ops| - 1];
      match ops[|ops| - 1]
      case Get(key) => GetsServed(lim, init, some) + if Served(lim, init, key).Some? == some then 1 else 0
      case Clear => 0
      case _ => GetsServed(lim, init, some)
  }

  /** After any trace hits counts the gets that returned a frame, and misses the others. */
  lemma {:induction false} CountersTell(lim: Limits, ops: seq<Op>)
    ensures Run(lim, ops).hits == GetsServed(lim, ops, true) && Run(lim, ops).misses == GetsServed(lim, ops, false)
  {
    if ops != [] {
      var init, op := ops[..|ops| - 1], ops[|ops| - 1];
      CountersTell(lim, init);
      RunConsistent(lim, init);
      if op.Put? && Accepts(lim, op.df) {
        InsertedConsistent(lim, Run(lim, init), op.key, op.df.value);
        EvictConsistent(lim, Inserted(Run(lim, init), op.key, op.df.value));
      }
    }
  }

  /** In a cache that may hold anything, a get returns what was just put exactly if it has rows and fits the entry limit; otherwise what was there before. */
  lemma PutIsServedIff(lim: Limits, ops: seq<Op>, key: string, df: Option<Frame>)
    requires lim.maxEntries > 0
    ensures Served(lim, ops + [Put(key, df)], key)
            == if df.Some? && df.value.height >= 1 && df.value.bytes <= lim.maxEntryBytes then df else Served(lim, ops, key)
  {
    hide Evict;
    var all, c := ops + [Put(key, df)], Run(lim, ops);
    assert all[..|ops|] == ops && all[|ops|] == Put(key, df);
    RunConsistent(lim, ops);
    if Accepts(lim, df) {
      var w := Without(c.store, key);
      InsertedConsistent(lim, c, key, df.value);
      EvictConsistent(lim, Inserted(c, key, df.value));
      var drop := if |w| + 1 <= lim.maxEntries then 0 else |w| + 1 - lim.maxEntries;
      assert (w + [Entry(key, df.value)])[drop..] == w[drop..] + [Entry(key, df.value)];
      WithoutFacts(c.store, key);
      FindLast(w, drop, Entry(key, df.value));
    }
  }

  lemma {:induction false} FindLast(w: seq<Entry<string, Frame>>, drop: nat, e: Entry<string, Frame>)
    requires drop <= |w| && e.key !in Keys(w)
    ensures Find(w[drop..] + [e], e.key) == Some(e.value)
    decreases |w| - drop
  {
    var s := w[drop..] + [e];
    if drop < |w| {
      assert s[1..] == w[drop + 1..] + [e];
      EntryInKeys(w, w[drop]);
      FindLast(w, drop + 1, e);
    }
  }
}
