/**
 Python's insertion-ordered dictionary: a sequence of entries whose keys are
 pairwise distinct, oldest entry first. Assign keeps the position of a key
 that is present; MoveToEnd makes a key the most recent one.
 */
module OrderedDict {
  import opened Wrappers

  datatype Entry<+K, +V> = Entry(key: K, value: V)

  function Keys<K, V>(d: seq<Entry<K, V>>): set<K> {
    if d == [] then {} else {d[0].key} + Keys(d[1..])
  }

  ghost predicate Distinct<K, V>(d: seq<Entry<K, V>>) {
    d == [] || (d[0].key !in Keys(d[1..]) && Distinct(d[1..]))
  }

  function Find<K(==), V>(d: seq<Entry<K, V>>, k: K): Option<V> {
    if d == [] then None
    else if d[0].key == k then Some(d[0].value)
    else Find(d[1..], k)
  }

  /** `del d[k]`, or nothing when k is missing. */
  function Without<K(==), V>(d: seq<Entry<K, V>>, k: K): seq<Entry<K, V>> {
    if d == [] then []
    else if d[0].key == k then Without(d[1..], k)
    else [d[0]] + Without(d[1..], k)
  }

  /** `d[k] = v`: in place when k is present, at the end otherwise. */
  function Assign<K(==), V>(d: seq<Entry<K, V>>, k: K, v: V): seq<Entry<K, V>> {
    if d == [] then [Entry(k, v)]
    else if d[0].key == k then [Entry(k, v)] + d[1..]
    else [d[0]] + Assign(d[1..], k, v)
  }

  /** `d.move_to_end(k)`, for a key that is present. */
  function MoveToEnd<K(==), V>(d: seq<Entry<K, V>>, k: K): seq<Entry<K, V>> {
    match Find(d, k)
    case None => d
    case Some(v) => Without(d, k) + [Entry(k, v)]
  }

  lemma {:induction false} FindInKeys<K, V>(d: seq<Entry<K, V>>, k: K)
    ensures Find(d, k).Some? <==> k in Keys(d)
    ensures Find(d, k).Some? ==> Entry(k, Find(d, k).value) in d
  {
    if d != [] {
      FindInKeys(d[1..], k);
    }
  }

  lemma {:induction false} EntryInKeys<K, V>(d: seq<Entry<K, V>>, e: Entry<K, V>)
    requires e in d
    ensures e.key in Keys(d)
    ensures Distinct(d) ==> Find(d, e.key) == Some(e.value)
  {
    if e != d[0] {
      EntryInKeys(d[1..], e);
    }
  }

  lemma {:induction false} WithoutFacts<K, V>(d: seq<Entry<K, V>>, k: K)
    ensures forall e :: e in Without(d, k) <==> e in d && e.key != k
    ensures Keys(Without(d, k)) == Keys(d) - {k}
    ensures Distinct(d) ==> Distinct(Without(d, k))
    ensures forall x :: Find(Without(d, k), x) == if x == k then None else Find(d, x)
    ensures k !in Keys(d) ==> Without(d, k) == d
    ensures Distinct(d) && k in Keys(d) ==> |Without(d, k)| == |d| - 1
  {
    if d != [] {
      WithoutFacts(d[1..], k);
      var w := Without(d, k);
      if d[0].key != k {
        assert w[1..] == Without(d[1..], k);
      }
      assert forall e :: e in d <==> e == d[0] || e in d[1..];
    }
  }

  lemma {:induction false} WithoutMembers<K, V>(d: seq<Entry<K, V>>, k: K)
    ensures forall e :: e in Without(d, k) ==> e in d && e.key != k
  {
    if d != [] {
      WithoutMembers(d[1..], k);
    }
  }

  lemma {:induction false} AssignFacts<K, V>(d: seq<Entry<K, V>>, k: K, v: V)
    ensures forall x :: Find(Assign(d, k, v), x) == if x == k then Some(v) else Find(d, x)
    ensures Keys(Assign(d, k, v)) == Keys(d) + {k}
    ensures Distinct(d) ==> Distinct(Assign(d, k, v))
    ensures Without(Assign(d, k, v), k) == Without(d, k)
    ensures |Assign(d, k, v)| == if k in Keys(d) then |d| else |d| + 1
  {
    var a := Assign(d, k, v);
    if d == [] {
      assert a[1..] == [];
    } else {
      AssignFacts(d[1..], k, v);
      assert a[1..] == if d[0].key == k then d[1..] else Assign(d[1..], k, v);
      FindInKeys(d, k);
    }
  }

  lemma {:induction false} AppendFacts<K, V>(d: seq<Entry<K, V>>, k: K, v: V)
    requires k !in Keys(d)
    ensures forall x :: Find(d + [Entry(k, v)], x) == if x == k then Some(v) else Find(d, x)
    ensures Keys(d + [Entry(k, v)]) == Keys(d) + {k}
    ensures Distinct(d) ==> Distinct(d + [Entry(k, v)])
  {
    var a := d + [Entry(k, v)];
    if d == [] {
      assert a[1..] == [];
    } else {
      assert a[1..] == d[1..] + [Entry(k, v)];
      AppendFacts(d[1..], k, v);
    }
  }

  /** Assigning a key and moving it to the end leaves it last and drops its old place. */
  lemma AssignThenMove<K, V>(d: seq<Entry<K, V>>, k: K, v: V)
    ensures MoveToEnd(Assign(d, k, v), k) == Without(d, k) + [Entry(k, v)]
  {
    AssignFacts(d, k, v);
  }

  /** A key that is made the most recent one: the rest keeps its order. */
  lemma RefreshFacts<K, V>(d: seq<Entry<K, V>>, k: K, v: V)
    ensures forall x :: Find(Without(d, k) + [Entry(k, v)], x) == if x == k then Some(v) else Find(d, x)
    ensures Keys(Without(d, k) + [Entry(k, v)]) == Keys(d) + {k}
    ensures Distinct(d) ==> Distinct(Without(d, k) + [Entry(k, v)])
  {
    WithoutFacts(d, k);
    AppendFacts(Without(d, k), k, v);
  }

  lemma {:induction false} KeysSize<K, V>(d: seq<Entry<K, V>>)
    requires Distinct(d)
    ensures |Keys(d)| == |d|
  {
    if d != [] {
      KeysSize(d[1..]);
    }
  }

  lemma SubsetSize<T>(a: set<T>, b: set<T>)
    requires a <= b
    ensures |a| <= |b|
  {
    assert b == a + (b - a);
  }
}
