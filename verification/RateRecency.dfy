/**
 Which keys the bounded bucket store remembers (engine/api/rate_limit.py): the
 most recently called ones, as many as it may hold.
 */
module RateRecency {
  import opened Wrappers
  import opened OrderedDict
  import opened RateLimit
  import opened RateEviction

  function Drop(r: seq<string>, key: string): seq<string> {
    if r == [] then [] else (if r[0] == key then [] else [r[0]]) + Drop(r[1..], key)
  }

  /** The called keys in the order of their last call, most recent last; `r` are those called before. */
  function Recent(r: seq<string>, calls: seq<Call>): seq<string>
    decreases calls
  {
    if calls == [] then r else Recent(Drop(r, calls[0].key) + [calls[0].key], calls[1..])
  }

  function Last(r: seq<string>, n: nat): seq<string> {
    if |r| <= n then r else r[|r| - n..]
  }

  function KeyList(s: seq<Entry<string, Bucket>>): seq<string> {
    if s == [] then [] else [s[0].key] + KeyList(s[1..])
  }

  ghost predicate Once(r: seq<string>) {
    forall i, j :: 0 <= i < j < |r| ==> r[i] != r[j]
  }

  lemma {:induction false} DropConcat(a: seq<string>, b: seq<string>, key: string)
    ensures Drop(a + b, key) == Drop(a, key) + Drop(b, key)
    decreases a
  {
    if a == [] {
      assert a + b == b;
    } else {
      assert (a + b)[1..] == a[1..] + b;
      DropConcat(a[1..], b, key);
    }
  }

  lemma {:induction false} DropFacts(r: seq<string>, key: string)
    ensures key !in r ==> Drop(r, key) == r
    ensures key in r && Once(r) ==> |Drop(r, key)| == |r| - 1
    ensures forall x :: x in Drop(r, key) <==> x in r && x != key
    ensures Once(r) ==> Once(Drop(r, key))
    decreases r
  {
    if r != [] {
      DropFacts(r[1..], key);
      assert forall x :: x in r <==> x == r[0] || x in r[1..];
      assert r[0] == key ==> Drop(r, key) == Drop(r[1..], key);
      assert r[0] != key ==> Drop(r, key)[0] == r[0] && Drop(r, key)[1..] == Drop(r[1..], key);
      if Once(r) {
        assert r[0] !in r[1..];
        assert forall i, j :: 0 <= i < j < |r[1..]| ==> r[1..][i] == r[i + 1] && r[1..][j] == r[j + 1];
      }
    }
  }

  lemma {:induction false} KeyListFacts(s: seq<Entry<string, Bucket>>, key: string)
    ensures |KeyList(s)| == |s| && (forall i :: 0 <= i < |s| ==> KeyList(s)[i] == s[i].key)
    ensures KeyList(Without(s, key)) == Drop(KeyList(s), key)
    decreases s
  {
    if s != [] {
      KeyListFacts(s[1..], key);
      if s[0].key == key {
        assert Drop(KeyList(s), key) == Drop(KeyList(s[1..]), key);
      } else {
        assert Without(s, key)[1..] == Without(s[1..], key);
      }
    }
  }

  lemma {:induction false} EvictIsLast(maxKeys: nat, s: seq<Entry<string, Bucket>>)
    ensures KeyList(Evict(maxKeys, s)) == Last(KeyList(s), maxKeys)
    decreases |s|
  {
    KeyListFacts(s, "");
    if |s| > maxKeys {
      KeyListHead(s);
      KeyListFacts(s[1..], "");
      hide KeyList, Last;
      EvictIsLast(maxKeys, s[1..]);
      LastOfConcat([s[0].key], KeyList(s[1..]), maxKeys);
    }
  }

  lemma KeyListHead(s: seq<Entry<string, Bucket>>)
    requires s != []
    ensures KeyList(s) == [s[0].key] + KeyList(s[1..])
  {}

  lemma {:induction false} KeyListAppend(s: seq<Entry<string, Bucket>>, e: Entry<string, Bucket>)
    ensures KeyList(s + [e]) == KeyList(s) + [e.key]
    decreases s
  {
    if s == [] {
      assert (s + [e])[1..] == [];
    } else {
      assert (s + [e])[1..] == s[1..] + [e];
      KeyListAppend(s[1..], e);
    }
  }

  /** Touching a key in the whole list and in its last part leaves the same last part. */
  lemma TouchLast(r: seq<string>, key: string, n: nat)
    requires Once(r)
    ensures Last(Drop(r, key) + [key], n) == Last(Drop(Last(r, n), key) + [key], n)
  {
    if |r| > n {
      hide Drop;
      var a, b := r[..|r| - n], r[|r| - n..];
      assert r == a + b;
      DropConcat(a, b, key);
      DropFacts(b, key);
      assert Once(b);
      assert Drop(r, key) + [key] == Drop(a, key) + (Drop(b, key) + [key]);
      LastOfConcat(Drop(a, key), Drop(b, key) + [key], n);
    }
  }

  lemma LastOfConcat(a: seq<string>, b: seq<string>, n: nat)
    requires n <= |b|
    ensures Last(a + b, n) == Last(b, n)
  {
    assert (a + b)[|a + b| - n..] == b[|b| - n..];
    assert b[0..] == b;
  }

  lemma TouchOnce(r: seq<string>, key: string)
    requires Once(r)
    ensures Once(Drop(r, key) + [key])
  {
    DropFacts(r, key);
  }

  lemma StepIsLast(rate: Rate, maxKeys: nat, s: seq<Entry<string, Bucket>>, r: seq<string>, c: Call)
    requires Once(r) && KeyList(s) == Last(r, maxKeys)
    ensures KeyList(StoreAfter(rate, maxKeys, s, c)) == Last(Drop(r, c.key) + [c.key], maxKeys)
  {
    hide After, Evict, Drop, Without;
    var e := Entry(c.key, After(rate, Find(s, c.key), c.now));
    KeyListFacts(s, c.key);
    KeyListAppend(Without(s, c.key), e);
    EvictIsLast(maxKeys, Without(s, c.key) + [e]);
    TouchLast(r, c.key, maxKeys);
  }

  lemma {:induction false} RunIsLast(rate: Rate, maxKeys: nat, s: seq<Entry<string, Bucket>>, r: seq<string>, calls: seq<Call>)
    requires Once(r) && KeyList(s) == Last(r, maxKeys)
    ensures KeyList(StoreRun(rate, maxKeys, s, calls)) == Last(Recent(r, calls), maxKeys)
    decreases calls
  {
    hide StoreAfter, Drop, Last, KeyList;
    if calls != [] {
      StepIsLast(rate, maxKeys, s, r, calls[0]);
      TouchOnce(r, calls[0].key);
      RunIsLast(rate, maxKeys, StoreAfter(rate, maxKeys, s, calls[0]), Drop(r, calls[0].key) + [calls[0].key], calls[1..]);
    }
  }

  /** After any calls the store holds exactly the keys called most recently, up to its limit, in the order of their last call. */
  lemma StoreHoldsMostRecent(rate: Rate, maxKeys: nat, calls: seq<Call>)
    ensures KeyList(StoreRun(rate, maxKeys, [], calls)) == Last(Recent([], calls), maxKeys)
  {
    RunIsLast(rate, maxKeys, [], [], calls);
  }
}
