/**
 Hierarchical risk parity, engine/core/portfolio_optimizer.py: a single-linkage
 merge loop that orders the assets, and a stack-driven bisection of that order.
 The correlation distance and the cluster variance are parameters; arithmetic is exact.
 */
module Hrp {
  import opened Wrappers
  import opened Sums
  import opened Products

  type Cluster = seq<nat>
  type Distance = (nat, nat) -> real

  ghost predicate Symmetric(dist: Distance) {
    forall a, b :: dist(a, b) == dist(b, a)
  }

  // ----- single linkage

  function Min(a: real, b: real): real { if a <= b then a else b }

  function Nearest(dist: Distance, a: nat, c: Cluster): real
    requires c != []
  {
    if |c| == 1 then dist(a, c[0]) else Min(dist(a, c[0]), Nearest(dist, a, c[1..]))
  }

  /** The smallest distance from a member of c to a member of d. */
  function Linkage(dist: Distance, c: Cluster, d: Cluster): real
    requires c != [] && d != []
  {
    if |c| == 1 then Nearest(dist, c[0], d) else Min(Nearest(dist, c[0], d), Linkage(dist, c[1..], d))
  }

  lemma {:induction false} NearestIs(dist: Distance, a: nat, c: Cluster)
    requires c != []
    ensures forall b :: b in c ==> Nearest(dist, a, c) <= dist(a, b)
    ensures exists b :: b in c && Nearest(dist, a, c) == dist(a, b)
  {
    if |c| > 1 {
      NearestIs(dist, a, c[1..]);
      if dist(a, c[0]) <= Nearest(dist, a, c[1..]) {
        assert c[0] in c;
      } else {
        var b :| b in c[1..] && Nearest(dist, a, c[1..]) == dist(a, b);
        assert b in c;
      }
    } else {
      assert c[0] in c;
    }
  }

  lemma {:induction false} LinkageBelow(dist: Distance, c: Cluster, d: Cluster, a: nat, b: nat)
    requires a in c && b in d
    ensures Linkage(dist, c, d) <= dist(a, b)
  {
    NearestIs(dist, c[0], d);
    if a != c[0] {
      LinkageBelow(dist, c[1..], d, a, b);
    }
  }

  lemma {:induction false} LinkageAttained(dist: Distance, c: Cluster, d: Cluster) returns (a: nat, b: nat)
    requires c != [] && d != []
    ensures a in c && b in d && Linkage(dist, c, d) == dist(a, b)
  {
    if |c| > 1 && Linkage(dist, c[1..], d) < Nearest(dist, c[0], d) {
      a, b := LinkageAttained(dist, c[1..], d);
    } else {
      NearestIs(dist, c[0], d);
      a := c[0];
      b :| b in d && Nearest(dist, c[0], d) == dist(a, b);
    }
  }

  // ----- the merge loop

  ghost predicate NonEmpty(cs: seq<Cluster>) {
    forall i :: 0 <= i < |cs| ==> cs[i] != []
  }

  predicate Earlier(p: nat, q: nat, i: nat, j: nat) {
    p < i || (p == i && q < j)
  }

  /** Pair (i, j) is at most as far apart as (a, b), and closer if (a, b) was scanned earlier. */
  predicate Beats(dist: Distance, cs: seq<Cluster>, i: nat, j: nat, a: nat, b: nat)
    requires i < |cs| && j < |cs| && a < |cs| && b < |cs|
    requires cs[i] != [] && cs[j] != [] && cs[a] != [] && cs[b] != []
  {
    var d, e := Linkage(dist, cs[i], cs[j]), Linkage(dist, cs[a], cs[b]);
    d < e || (d == e && !Earlier(a, b, i, j))
  }

  /** Of the pairs scanned before (p, q) the closest is (i, j), and it was the first of those. */
  ghost predicate ClosestSoFar(dist: Distance, cs: seq<Cluster>, i: nat, j: nat, p: nat, q: nat)
    requires NonEmpty(cs)
  {
    i < j < |cs| && forall a, b :: 0 <= a < b < |cs| && Earlier(a, b, p, q) ==> Beats(dist, cs, i, j, a, b)
  }

  /** The closest pair, and the first of those in scan order. */
  ghost predicate FirstClosest(dist: Distance, cs: seq<Cluster>, i: nat, j: nat)
    requires NonEmpty(cs)
  {
    ClosestSoFar(dist, cs, i, j, |cs|, 0)
  }

  /** No pair is closer, and every pair with a smaller first index, or the same and a smaller second, is farther apart. */
  lemma FirstClosestTells(dist: Distance, cs: seq<Cluster>, i: nat, j: nat)
    requires NonEmpty(cs) && i < j < |cs|
    ensures FirstClosest(dist, cs, i, j) <==>
            forall a, b :: 0 <= a < b < |cs| ==>
              && Linkage(dist, cs[i], cs[j]) <= Linkage(dist, cs[a], cs[b])
              && (a < i || (a == i && b < j) ==> Linkage(dist, cs[i], cs[j]) < Linkage(dist, cs[a], cs[b]))
  {
    hide Linkage;
    if FirstClosest(dist, cs, i, j) {
      forall a, b | 0 <= a < b < |cs|
        ensures Linkage(dist, cs[i], cs[j]) <= Linkage(dist, cs[a], cs[b])
        ensures a < i || (a == i && b < j) ==> Linkage(dist, cs[i], cs[j]) < Linkage(dist, cs[a], cs[b])
      {
        assert Earlier(a, b, |cs|, 0) && Beats(dist, cs, i, j, a, b);
      }
    } else {
      var a, b :| 0 <= a < b < |cs| && !Beats(dist, cs, i, j, a, b);
    }
  }

  /** Pop j, pop i, append the two as one. */
  function Merge(cs: seq<Cluster>, i: nat, j: nat): seq<Cluster>
    requires i < j < |cs|
  {
    cs[..i] + cs[i + 1..j] + cs[j + 1..] + [cs[i] + cs[j]]
  }

  function Range(n: nat): seq<nat> {
    if n == 0 then [] else Range(n - 1) + [n - 1]
  }

  function Singletons(n: nat): seq<Cluster> { seq(n, i requires 0 <= i < n => [i]) }

  function Flatten(cs: seq<Cluster>): Cluster {
    if cs == [] then [] else cs[0] + Flatten(cs[1..])
  }

  /** One round of the loop. */
  ghost predicate Step(dist: Distance, cs: seq<Cluster>, cs': seq<Cluster>) {
    NonEmpty(cs) && exists i, j :: FirstClosest(dist, cs, i, j) && cs' == Merge(cs, i, j)
  }

  /** The states the loop has gone through, from n single assets on. */
  ghost predicate History(dist: Distance, n: nat, h: seq<seq<Cluster>>) {
    && h != []
    && if |h| == 1 then h[0] == Singletons(n)
       else History(dist, n, h[..|h| - 1]) && Step(dist, h[|h| - 2], h[|h| - 1])
  }

  function Last<T>(s: seq<T>): T
    requires s != []
  {
    s[|s| - 1]
  }

  /** The clusters always share out the assets. */
  ghost predicate Partition(n: nat, cs: seq<Cluster>) {
    NonEmpty(cs) && multiset(Flatten(cs)) == multiset(Range(n))
  }

  lemma {:induction false} FlattenConcat(a: seq<Cluster>, b: seq<Cluster>)
    ensures Flatten(a + b) == Flatten(a) + Flatten(b)
  {
    if a == [] {
      assert a + b == b;
    } else {
      assert (a + b)[1..] == a[1..] + b;
      FlattenConcat(a[1..], b);
    }
  }

  lemma FlattenOne(c: Cluster)
    ensures Flatten([c]) == c
  {
    assert Flatten([]) == [];
  }

  lemma FlattenAround(cs: seq<Cluster>, i: nat)
    requires i < |cs|
    ensures multiset(Flatten(cs)) == multiset(Flatten(cs[..i] + cs[i + 1..])) + multiset(cs[i])
  {
    hide Flatten;
    FlattenConcat(cs[..i], cs[i + 1..]);
    FlattenConcat(cs[..i], [cs[i]]);
    FlattenOne(cs[i]);
    FlattenConcat(cs[..i] + [cs[i]], cs[i + 1..]);
    assert cs == cs[..i] + [cs[i]] + cs[i + 1..];
    var a, c, b := Flatten(cs[..i]), cs[i], Flatten(cs[i + 1..]);
    assert multiset(a + c + b) == multiset(a) + multiset(c) + multiset(b);
    assert multiset(a + b) == multiset(a) + multiset(b);
  }

  lemma MergeKeepsPartition(n: nat, cs: seq<Cluster>, i: nat, j: nat)
    requires Partition(n, cs) && i < j < |cs|
    ensures Partition(n, Merge(cs, i, j))
  {
    hide Flatten;
    var less := cs[..j] + cs[j + 1..];
    var rest := cs[..i] + cs[i + 1..j] + cs[j + 1..];
    FlattenAround(cs, j);
    FlattenAround(less, i);
    assert less[..i] + less[i + 1..] == rest;
    FlattenConcat(rest, [cs[i] + cs[j]]);
    FlattenOne(cs[i] + cs[j]);
  }

  lemma {:induction false} SingletonsPartition(n: nat)
    ensures Flatten(Singletons(n)) == Range(n)
  {
    if n > 0 {
      SingletonsPartition(n - 1);
      assert Singletons(n) == Singletons(n - 1) + [[n - 1]];
      FlattenConcat(Singletons(n - 1), [[n - 1]]);
      FlattenOne([n - 1]);
    }
  }

  lemma {:induction false} HistoryKeepsPartition(dist: Distance, n: nat, h: seq<seq<Cluster>>)
    requires History(dist, n, h)
    ensures Partition(n, Last(h))
  {
    if |h| == 1 {
      SingletonsPartition(n);
    } else {
      HistoryKeepsPartition(dist, n, h[..|h| - 1]);
      var cs := h[|h| - 2];
      var i: nat, j: nat :| FirstClosest(dist, cs, i, j) && Last(h) == Merge(cs, i, j);
      MergeKeepsPartition(n, cs, i, j);
    }
  }

  /** The order that comes out holds every asset exactly once. */
  lemma OrderIsPermutation(dist: Distance, n: nat, h: seq<seq<Cluster>>, order: Cluster)
    requires History(dist, n, h) && Last(h) == [order]
    ensures multiset(order) == multiset(Range(n))
  {
    HistoryKeepsPartition(dist, n, h);
    FlattenOne(order);
  }

  ghost predicate Block(c: Cluster, order: Cluster) {
    exists p: Cluster, q: Cluster :: order == p + c + q
  }

  lemma BlockOf(p: Cluster, c: Cluster, q: Cluster)
    ensures Block(c, p + c + q)
  {}

  lemma BlockTransitive(a: Cluster, b: Cluster, c: Cluster)
    requires Block(a, b) && Block(b, c)
    ensures Block(a, c)
  {
    var p, q :| b == p + a + q;
    var p', q' :| c == p' + b + q';
    assert c == (p' + p) + a + (q + q');
  }

  lemma MergeKeepsBlocks(cs: seq<Cluster>, i: nat, j: nat, t: nat) returns (u: nat)
    requires i < j < |cs| && t < |cs|
    ensures u < |Merge(cs, i, j)| && Block(cs[t], Merge(cs, i, j)[u])
  {
    var next := Merge(cs, i, j);
    if t == i || t == j {
      u := |next| - 1;
      assert next[u] == [] + cs[i] + cs[j] == cs[i] + cs[j] + [];
      BlockOf([], cs[i], cs[j]);
      BlockOf(cs[i], cs[j], []);
    } else {
      u := if t < i then t else if t < j then t - 1 else t - 2;
      assert next[u] == [] + cs[t] + [];
    }
  }

  /** A cluster the loop ever formed stays together in the final order. */
  lemma {:induction false} ClustersStayTogether(dist: Distance, n: nat, h: seq<seq<Cluster>>, t: nat, k: nat) returns (u: nat)
    requires History(dist, n, h) && t < |h| && k < |h[t]|
    ensures u < |Last(h)| && Block(h[t][k], Last(h)[u])
  {
    if t == |h| - 1 {
      u := k;
      BlockOf([], h[t][k], []);
      assert [] + h[t][k] + [] == h[t][k];
    } else {
      var before := h[..|h| - 1];
      var u' := ClustersStayTogether(dist, n, before, t, k);
      var cs := h[|h| - 2];
      var i: nat, j: nat :| FirstClosest(dist, cs, i, j) && Last(h) == Merge(cs, i, j);
      u := MergeKeepsBlocks(cs, i, j, u');
      BlockTransitive(h[t][k], cs[u'], Last(h)[u]);
    }
  }

  // ----- what the clusters are: single-linkage clusters

  /** Different clusters are at least `height` apart. */
  ghost predicate Separated(dist: Distance, cs: seq<Cluster>, height: real)
    requires NonEmpty(cs)
  {
    forall p, q :: 0 <= p < q < |cs| ==> Linkage(dist, cs[p], cs[q]) >= height
  }

  /** A cluster is held together by links of at most `height`. */
  ghost predicate Joined(dist: Distance, c: Cluster, height: real)
    decreases |c|
  {
    |c| == 1 || exists k :: 0 < k < |c| && JoinedAt(dist, c, k, height)
  }

  ghost predicate JoinedAt(dist: Distance, c: Cluster, k: nat, height: real)
    requires 0 < k < |c|
    decreases |c|, 0
  {
    Joined(dist, c[..k], height) && Joined(dist, c[k..], height) && Linkage(dist, c[..k], c[k..]) <= height
  }

  ghost predicate AllJoined(dist: Distance, cs: seq<Cluster>, height: real) {
    forall i :: 0 <= i < |cs| ==> Joined(dist, cs[i], height)
  }

  lemma {:induction false} JoinedHigher(dist: Distance, c: Cluster, low: real, high: real)
    requires Joined(dist, c, low) && low <= high
    ensures Joined(dist, c, high)
    decreases |c|
  {
    if |c| != 1 {
      var k :| 0 < k < |c| && JoinedAt(dist, c, k, low);
      JoinedHigher(dist, c[..k], low, high);
      JoinedHigher(dist, c[k..], low, high);
      assert JoinedAt(dist, c, k, high);
    }
  }

  lemma LinkageSymmetric(dist: Distance, c: Cluster, d: Cluster)
    requires Symmetric(dist) && c != [] && d != []
    ensures Linkage(dist, c, d) == Linkage(dist, d, c)
  {
    var a, b := LinkageAttained(dist, c, d);
    LinkageBelow(dist, d, c, b, a);
    var a', b' := LinkageAttained(dist, d, c);
    LinkageBelow(dist, c, d, b', a');
  }

  /** Merging brings a cluster no closer to the others than its parts were. */
  lemma LinkageToMerged(dist: Distance, c: Cluster, a: Cluster, b: Cluster, height: real)
    requires c != [] && a != [] && b != []
    requires Linkage(dist, c, a) >= height && Linkage(dist, c, b) >= height
    ensures Linkage(dist, c, a + b) >= height
  {
    var x, y := LinkageAttained(dist, c, a + b);
    if y in a {
      LinkageBelow(dist, c, a, x, y);
    } else {
      LinkageBelow(dist, c, b, x, y);
    }
  }

  lemma SeparatedPair(dist: Distance, cs: seq<Cluster>, height: real, p: nat, q: nat)
    requires NonEmpty(cs) && Symmetric(dist) && Separated(dist, cs, height) && p < |cs| && q < |cs| && p != q
    ensures Linkage(dist, cs[p], cs[q]) >= height
  {
    if p > q {
      LinkageSymmetric(dist, cs[p], cs[q]);
    }
  }

  /** Where a cluster that was not merged stood before. */
  function Before(t: nat, i: nat, j: nat): nat
    requires i < j
  {
    if t < i then t else if t + 1 < j then t + 1 else t + 2
  }

  lemma MergeIndex(cs: seq<Cluster>, i: nat, j: nat, t: nat)
    requires i < j < |cs| && t < |cs| - 2
    ensures Merge(cs, i, j)[t] == cs[Before(t, i, j)] && Before(t, i, j) != i && Before(t, i, j) != j
  {}

  lemma MergeKeepsSeparated(dist: Distance, cs: seq<Cluster>, i: nat, j: nat, height: real)
    requires NonEmpty(cs) && Symmetric(dist) && Separated(dist, cs, height) && i < j < |cs|
    ensures NonEmpty(Merge(cs, i, j)) && Separated(dist, Merge(cs, i, j), height)
  {
    var next := Merge(cs, i, j);
    forall p, q | 0 <= p < q < |next|
      ensures next[p] != [] && next[q] != [] && Linkage(dist, next[p], next[q]) >= height
    {
      MergeIndex(cs, i, j, p);
      var p' := Before(p, i, j);
      if q < |next| - 1 {
        MergeIndex(cs, i, j, q);
        SeparatedPair(dist, cs, height, p', Before(q, i, j));
      } else {
        SeparatedPair(dist, cs, height, p', i);
        SeparatedPair(dist, cs, height, p', j);
        LinkageToMerged(dist, cs[p'], cs[i], cs[j], height);
      }
    }
  }

  lemma MergeKeepsJoined(dist: Distance, cs: seq<Cluster>, i: nat, j: nat, low: real)
    requires NonEmpty(cs) && i < j < |cs| && AllJoined(dist, cs, low) && low <= Linkage(dist, cs[i], cs[j])
    ensures AllJoined(dist, Merge(cs, i, j), Linkage(dist, cs[i], cs[j]))
  {
    var next, high := Merge(cs, i, j), Linkage(dist, cs[i], cs[j]);
    forall t | 0 <= t < |next|
      ensures Joined(dist, next[t], high)
    {
      if t < |next| - 1 {
        MergeIndex(cs, i, j, t);
        JoinedHigher(dist, cs[Before(t, i, j)], low, high);
      } else {
        var c, k := cs[i] + cs[j], |cs[i]|;
        assert c[..k] == cs[i] && c[k..] == cs[j];
        JoinedHigher(dist, cs[i], low, high);
        JoinedHigher(dist, cs[j], low, high);
        assert JoinedAt(dist, c, k, high);
      }
    }
  }

  lemma FirstClosestSeparates(dist: Distance, cs: seq<Cluster>, i: nat, j: nat)
    requires NonEmpty(cs) && FirstClosest(dist, cs, i, j)
    ensures Separated(dist, cs, Linkage(dist, cs[i], cs[j]))
  {
    forall p, q | 0 <= p < q < |cs|
      ensures Linkage(dist, cs[p], cs[q]) >= Linkage(dist, cs[i], cs[j])
    {
      assert Beats(dist, cs, i, j, p, q);
    }
  }

  /** Merge distances never go down. */
  lemma MergeHeightsNondecreasing(dist: Distance, cs: seq<Cluster>, i: nat, j: nat, p: nat, q: nat)
    requires Symmetric(dist) && NonEmpty(cs) && FirstClosest(dist, cs, i, j) && NonEmpty(Merge(cs, i, j))
    requires FirstClosest(dist, Merge(cs, i, j), p, q)
    ensures Linkage(dist, Merge(cs, i, j)[p], Merge(cs, i, j)[q]) >= Linkage(dist, cs[i], cs[j])
  {
    FirstClosestSeparates(dist, cs, i, j);
    MergeKeepsSeparated(dist, cs, i, j, Linkage(dist, cs[i], cs[j]));
    FirstClosestSeparates(dist, Merge(cs, i, j), p, q);
  }

  /**
   After every merge the clusters are those of single linkage at the height of that
   merge: held together by links up to it, and apart from one another by at least it.
   */
  lemma {:induction false} StagesAreSingleLinkage(dist: Distance, n: nat, h: seq<seq<Cluster>>) returns (height: real)
    requires Symmetric(dist) && History(dist, n, h) && |h| > 1
    ensures NonEmpty(Last(h)) && AllJoined(dist, Last(h), height) && Separated(dist, Last(h), height)
  {
    var before := h[..|h| - 1];
    HistoryKeepsPartition(dist, n, before);
    var cs := Last(before);
    var i: nat, j: nat :| FirstClosest(dist, cs, i, j) && Last(h) == Merge(cs, i, j);
    height := Linkage(dist, cs[i], cs[j]);
    FirstClosestSeparates(dist, cs, i, j);
    var low := height;
    if |before| > 1 {
      low := StagesAreSingleLinkage(dist, n, before);
      assert low <= height;
    }
    MergeKeepsJoined(dist, cs, i, j, low);
    MergeKeepsSeparated(dist, cs, i, j, height);
  }

  /** Scanning one more pair. */
  lemma ScanPair(dist: Distance, cs: seq<Cluster>, i: nat, j: nat, p: nat, q: nat)
    requires NonEmpty(cs) && ClosestSoFar(dist, cs, i, j, p, q) && p < q < |cs| && Earlier(i, j, p, q)
    ensures if Linkage(dist, cs[p], cs[q]) < Linkage(dist, cs[i], cs[j]) then ClosestSoFar(dist, cs, p, q, p, q + 1)
            else ClosestSoFar(dist, cs, i, j, p, q + 1)
  {
    var i', j' := i, j;
    if Linkage(dist, cs[p], cs[q]) < Linkage(dist, cs[i], cs[j]) {
      i', j' := p, q;
    }
    forall a, b | 0 <= a < b < |cs| && Earlier(a, b, p, q + 1)
      ensures Beats(dist, cs, i', j', a, b)
    {
      if Earlier(a, b, p, q) {
        assert Beats(dist, cs, i, j, a, b);
      }
    }
  }

  /** The pair that the two nested loops keep; None is the infinite start value. */
  method ClosestPair(dist: Distance, clusters: seq<Cluster>) returns (i: nat, j: nat)
    requires NonEmpty(clusters) && |clusters| > 1
    ensures FirstClosest(dist, clusters, i, j)
  {
    var best: Option<real> := None;
    i, j := 0, 0;
    for p := 0 to |clusters|
      invariant if best.None? then p == 0
                else Earlier(i, j, p, 0) && ClosestSoFar(dist, clusters, i, j, p, 0)
                     && best.value == Linkage(dist, clusters[i], clusters[j])
    {
      for q := p + 1 to |clusters|
        invariant if best.None? then p == 0 && q == 1
                  else Earlier(i, j, p, q) && ClosestSoFar(dist, clusters, i, j, p, q)
                       && best.value == Linkage(dist, clusters[i], clusters[j])
      {
        var d := Linkage(dist, clusters[p], clusters[q]);
        if best.Some? {
          ScanPair(dist, clusters, i, j, p, q);
        }
        if best.None? || d < best.value {
          best, i, j := Some(d), p, q;
        }
      }
    }
  }

  method QuasiDiagOrder(dist: Distance, n: nat) returns (order: Cluster)
    ensures multiset(order) == multiset(Range(n))
    ensures n > 0 ==> exists h :: History(dist, n, h) && Last(h) == [order]
  {
    if n <= 1 {
      ghost var h := [Singletons(n)];
      assert History(dist, n, h) && (n == 1 ==> Last(h) == [[0]]);
      assert Range(n) == if n == 0 then [] else [0];
      return if n == 0 then [] else [0];
    }
    var clusters := Singletons(n);
    ghost var h := [clusters];
    HistoryKeepsPartition(dist, n, h);
    while |clusters| > 1
      invariant clusters != [] && Partition(n, clusters)
      invariant History(dist, n, h) && Last(h) == clusters
    {
      var i, j := ClosestPair(dist, clusters);
      MergeKeepsPartition(n, clusters, i, j);
      var merged := clusters[i] + clusters[j];
      ghost var was := clusters;
      clusters := clusters[..j] + clusters[j + 1..];
      clusters := clusters[..i] + clusters[i + 1..];
      clusters := clusters + [merged];
      assert clusters == Merge(was, i, j);
      assert (h + [clusters])[..|h|] == h;
      h := h + [clusters];
    }
    order := clusters[0];
    OrderIsPermutation(dist, n, h, order);
  }

  // ----- bisection

  ghost predicate PositiveOn(v: Cluster -> real) {
    forall c :: c != [] ==> v(c) > 0.0
  }

  /** Variances of clusters, all positive. */
  type Variance = v: Cluster -> real | PositiveOn(v) witness (c: Cluster) => 1.0

  /** For every cluster, the part of its weight that goes to its left half. */
  type Split = Cluster -> real

  function Left(c: Cluster): Cluster { c[..|c| / 2] }

  function Right(c: Cluster): Cluster { c[|c| / 2..] }

  /** The halves share a cluster out in order, as evenly as can be, the odd asset going right. */
  lemma SplitsInHalf(c: Cluster)
    ensures c == Left(c) + Right(c) && 0 <= |Right(c)| - |Left(c)| <= 1
  {
    assert c == Left(c) + Right(c);
  }

  /** The split the code computes: 1 - var_left / (var_left + var_right). */
  function Alpha(v: Variance): Split {
    c =>
      if |c| <= 1 then 0.5
      else
        assert v(Left(c)) > 0.0 && v(Right(c)) > 0.0;
        1.0 - v(Left(c)) / (v(Left(c)) + v(Right(c)))
  }

  /** The factor that bisecting c gives to asset x; one for an asset outside c. */
  function Share(s: Split, c: Cluster, x: nat): real
    decreases |c|
  {
    if |c| <= 1 then 1.0
    else if x in Left(c) then Times(s(c), Share(s, Left(c), x))
    else if x in Right(c) then Times(1.0 - s(c), Share(s, Right(c), x))
    else 1.0
  }

  function Total(w: nat -> real, c: Cluster): real {
    if c == [] then 0.0 else w(c[0]) + Total(w, c[1..])
  }

  ghost predicate NoRepeats(c: Cluster) {
    forall x :: multiset(c)[x] <= 1
  }

  /** Weight times variance, of all of c. */
  function Risk(w: nat -> real, v: Variance, c: Cluster): real { Times(Total(w, c), v(c)) }

  /** Risk parity at every split: weight times variance is the same on both sides. */
  predicate Balanced(v: Variance, w: nat -> real, c: Cluster)
    decreases |c|
  {
    |c| <= 1
    || (Risk(w, v, Left(c)) == Risk(w, v, Right(c)) && Balanced(v, w, Left(c)) && Balanced(v, w, Right(c)))
  }

  lemma AlphaFacts(v: Variance, c: Cluster)
    requires |c| > 1
    ensures 0.0 < Alpha(v)(c) < 1.0
    ensures Times(Alpha(v)(c), v(Left(c))) == Times(1.0 - Alpha(v)(c), v(Right(c)))
  {
    assert v(Left(c)) > 0.0 && v(Right(c)) > 0.0;
    SplitFraction(v(Left(c)), v(Right(c)));
  }

  lemma SplitFraction(l: real, r: real)
    requires l > 0.0 && r > 0.0
    ensures 0.0 < l / (l + r) < 1.0
    ensures (1.0 - l / (l + r)) * l == l / (l + r) * r
  {
    var q := l / (l + r);
    assert q * (l + r) == l;
    assert q * l + q * r == l;
  }

  lemma SplitParts(left: real, right: real, l: real, r: real, a: real)
    requires l > 0.0 && r > 0.0 && Times(left, l) == Times(right, r) && Times(a, l) == Times(1.0 - a, r)
    ensures left == Times(left + right, a) && right == Times(left + right, 1.0 - a)
  {
    var t := left + right;
    assert a * (l + r) == r;
    assert t * r == left * (l + r);
    assert (t * a) * (l + r) == t * (a * (l + r));
    assert (t * a - left) * (l + r) == 0.0;
    assert t * a == left;
  }

  lemma {:induction false} TotalConcat(w: nat -> real, c: Cluster, d: Cluster)
    ensures Total(w, c + d) == Total(w, c) + Total(w, d)
    decreases c
  {
    if c == [] {
      assert c + d == d;
    } else {
      assert (c + d)[1..] == c[1..] + d;
      TotalConcat(w, c[1..], d);
    }
  }

  lemma TotalHalves(w: nat -> real, c: Cluster)
    ensures Total(w, c) == Total(w, Left(c)) + Total(w, Right(c))
  {
    assert c == Left(c) + Right(c);
    TotalConcat(w, Left(c), Right(c));
  }

  lemma ShareLeft(s: Split, c: Cluster, x: nat)
    requires |c| > 1 && x in Left(c)
    ensures Share(s, c, x) == Times(s(c), Share(s, Left(c), x))
  {
    hide Times;
  }

  lemma ShareRight(s: Split, c: Cluster, x: nat)
    requires |c| > 1 && x !in Left(c) && x in Right(c)
    ensures Share(s, c, x) == Times(1.0 - s(c), Share(s, Right(c), x))
  {
    hide Times;
  }

  lemma ShareOutside(s: Split, c: Cluster, x: nat)
    requires x !in c || |c| <= 1
    ensures Share(s, c, x) == 1.0
  {
    if |c| > 1 {
      assert c == Left(c) + Right(c);
      assert x !in Left(c) && x !in Right(c);
    }
  }

  lemma HalvesNoRepeats(c: Cluster)
    requires NoRepeats(c)
    ensures NoRepeats(Left(c)) && NoRepeats(Right(c))
    ensures forall x :: x in Left(c) ==> x !in Right(c)
    ensures forall x :: x in c <==> x in Left(c) || x in Right(c)
  {
    assert c == Left(c) + Right(c);
    assert multiset(c) == multiset(Left(c)) + multiset(Right(c));
    forall x | x in Left(c)
      ensures x !in Right(c)
    {
      assert multiset(c)[x] == multiset(Left(c))[x] + multiset(Right(c))[x];
    }
    forall x: nat
      ensures multiset(Left(c))[x] <= 1 && multiset(Right(c))[x] <= 1
    {
      assert multiset(c)[x] == multiset(Left(c))[x] + multiset(Right(c))[x];
    }
  }

  lemma {:induction false} SharePositive(v: Variance, c: Cluster, x: nat)
    ensures Share(Alpha(v), c, x) > 0.0
    decreases |c|
  {
    hide Share, Alpha, Times;
    if |c| <= 1 || (x !in Left(c) && x !in Right(c)) {
      ShareOutside(Alpha(v), c, x);
    } else {
      AlphaFacts(v, c);
      if x in Left(c) {
        ShareLeft(Alpha(v), c, x);
        SharePositive(v, Left(c), x);
        TimesPositive(Alpha(v)(c), Share(Alpha(v), Left(c), x));
      } else {
        ShareRight(Alpha(v), c, x);
        SharePositive(v, Right(c), x);
        TimesPositive(1.0 - Alpha(v)(c), Share(Alpha(v), Right(c), x));
      }
    }
  }

  /** The weights of a cluster are its shares times k. */
  ghost predicate Follows(s: Split, w: nat -> real, k: real, c: Cluster) {
    forall x :: x in c ==> w(x) == Times(k, Share(s, c, x))
  }

  /** Weights that follow the shares of c follow those of its halves, scaled by the split. */
  lemma HalvesFollow(s: Split, w: nat -> real, k: real, c: Cluster)
    requires |c| > 1 && NoRepeats(c) && Follows(s, w, k, c)
    ensures Follows(s, w, Times(k, s(c)), Left(c)) && Follows(s, w, Times(k, 1.0 - s(c)), Right(c))
  {
    hide Share, Times;
    HalvesNoRepeats(c);
    forall x | x in Left(c)
      ensures w(x) == Times(Times(k, s(c)), Share(s, Left(c), x))
    {
      ShareLeft(s, c, x);
      TimesAssociates(k, s(c), Share(s, Left(c), x));
    }
    forall x | x in Right(c)
      ensures w(x) == Times(Times(k, 1.0 - s(c)), Share(s, Right(c), x))
    {
      ShareRight(s, c, x);
      TimesAssociates(k, 1.0 - s(c), Share(s, Right(c), x));
    }
  }

  /** And the other way: following the halves by these factors is following the whole. */
  lemma WholeFollows(s: Split, w: nat -> real, k: real, c: Cluster)
    requires |c| > 1 && NoRepeats(c)
    requires Follows(s, w, Times(k, s(c)), Left(c)) && Follows(s, w, Times(k, 1.0 - s(c)), Right(c))
    ensures Follows(s, w, k, c)
  {
    hide Share, Times;
    HalvesNoRepeats(c);
    forall x | x in c
      ensures w(x) == Times(k, Share(s, c, x))
    {
      if x in Left(c) {
        ShareLeft(s, c, x);
        TimesAssociates(k, s(c), Share(s, Left(c), x));
      } else {
        ShareRight(s, c, x);
        TimesAssociates(k, 1.0 - s(c), Share(s, Right(c), x));
      }
    }
  }

  lemma TotalOne(w: nat -> real, c: Cluster)
    requires |c| == 1
    ensures Total(w, c) == w(c[0])
  {
    assert Total(w, c[1..]) == 0.0;
  }

  /** Weights that follow the shares of c by a factor k have total k. */
  lemma {:induction false} FollowersTotal(s: Split, w: nat -> real, k: real, c: Cluster)
    requires c != [] && NoRepeats(c) && Follows(s, w, k, c)
    ensures Total(w, c) == k
    decreases |c|
  {
    hide Share, Times, Total;
    if |c| > 1 {
      HalvesNoRepeats(c);
      HalvesFollow(s, w, k, c);
      FollowersTotal(s, w, Times(k, s(c)), Left(c));
      FollowersTotal(s, w, Times(k, 1.0 - s(c)), Right(c));
      TotalHalves(w, c);
      TimesParts(k, s(c));
    } else {
      ShareOutside(s, c, c[0]);
      TimesOne(k);
      TotalOne(w, c);
      assert c[0] in c;
    }
  }

  lemma BalancedNode(v: Variance, w: nat -> real, c: Cluster)
    requires |c| > 1
    ensures Balanced(v, w, c) <==>
            Risk(w, v, Left(c)) == Risk(w, v, Right(c)) && Balanced(v, w, Left(c)) && Balanced(v, w, Right(c))
  {
    hide Risk;
  }

  lemma SameRisk(v: Variance, k: real, c: Cluster)
    requires |c| > 1
    ensures Times(Times(k, Alpha(v)(c)), v(Left(c))) == Times(Times(k, 1.0 - Alpha(v)(c)), v(Right(c)))
  {
    hide Alpha, Times;
    AlphaFacts(v, c);
    TimesAssociates(k, Alpha(v)(c), v(Left(c)));
    TimesAssociates(k, 1.0 - Alpha(v)(c), v(Right(c)));
  }

  /** Weights that follow the shares are balanced at every split. */
  lemma {:induction false} FollowersBalanced(v: Variance, w: nat -> real, k: real, c: Cluster)
    requires NoRepeats(c) && Follows(Alpha(v), w, k, c)
    ensures Balanced(v, w, c)
    decreases |c|
  {
    if |c| > 1 {
      hide Share, Alpha, Times, Balanced, Total;
      var a := Alpha(v)(c);
      HalvesNoRepeats(c);
      HalvesFollow(Alpha(v), w, k, c);
      FollowersBalanced(v, w, Times(k, a), Left(c));
      FollowersBalanced(v, w, Times(k, 1.0 - a), Right(c));
      FollowersTotal(Alpha(v), w, Times(k, a), Left(c));
      FollowersTotal(Alpha(v), w, Times(k, 1.0 - a), Right(c));
      SameRisk(v, k, c);
      BalancedNode(v, w, c);
    }
  }

  /** Halves that carry the same risk carry the parts the split names. */
  lemma BalancedParts(v: Variance, w: nat -> real, c: Cluster)
    requires |c| > 1 && Risk(w, v, Left(c)) == Risk(w, v, Right(c))
    ensures Total(w, Left(c)) == Times(Total(w, c), Alpha(v)(c))
    ensures Total(w, Right(c)) == Times(Total(w, c), 1.0 - Alpha(v)(c))
  {
    hide Alpha, Times, Total;
    assert v(Left(c)) > 0.0 && v(Right(c)) > 0.0;
    AlphaFacts(v, c);
    TotalHalves(w, c);
    SplitParts(Total(w, Left(c)), Total(w, Right(c)), v(Left(c)), v(Right(c)), Alpha(v)(c));
  }

  /** Weights balanced at every split follow the shares, by their total. */
  lemma {:induction false} BalancedFollow(v: Variance, w: nat -> real, c: Cluster)
    requires NoRepeats(c) && Balanced(v, w, c)
    ensures Follows(Alpha(v), w, Total(w, c), c)
    decreases |c|
  {
    hide Share, Alpha, Times, Balanced, Total;
    if |c| > 1 {
      HalvesNoRepeats(c);
      BalancedNode(v, w, c);
      BalancedFollow(v, w, Left(c));
      BalancedFollow(v, w, Right(c));
      BalancedParts(v, w, c);
      WholeFollows(Alpha(v), w, Total(w, c), c);
    } else if |c| == 1 {
      ShareOutside(Alpha(v), c, c[0]);
      TotalOne(w, c);
      TimesOne(w(c[0]));
    }
  }

  lemma FollowsOnce(s: Split, w: nat -> real, c: Cluster)
    ensures Follows(s, w, 1.0, c) <==> forall x :: x in c ==> w(x) == Share(s, c, x)
  {
    hide Share, Times;
    forall x: nat
      ensures Times(1.0, Share(s, c, x)) == Share(s, c, x)
    {
      TimesOne(Share(s, c, x));
    }
  }

  /** The bisection's weights are the only ones that sum to one with risk balanced at every split. */
  lemma OnlyBalancedWeights(v: Variance, w: nat -> real, order: Cluster)
    requires order != [] && NoRepeats(order)
    ensures Total(w, order) == 1.0 && Balanced(v, w, order)
            <==> forall x :: x in order ==> w(x) == Share(Alpha(v), order, x)
  {
    hide Share, Alpha, Times, Balanced, Total;
    FollowsOnce(Alpha(v), w, order);
    if Balanced(v, w, order) {
      BalancedFollow(v, w, order);
    }
    if Follows(Alpha(v), w, 1.0, order) {
      FollowersBalanced(v, w, 1.0, order);
      FollowersTotal(Alpha(v), w, 1.0, order);
    }
  }

  // ----- equal variances

  function Pow2(k: nat): (p: nat)
    ensures p > 0
  {
    if k == 0 then 1 else 2 * Pow2(k - 1)
  }

  ghost predicate SameVariance(v: Variance) {
    forall c, d :: c != [] && d != [] ==> v(c) == v(d)
  }

  /** One 2^k-th, or half of that. */
  predicate OnePartIn(w: real, k: nat) { w == 1.0 / Pow2(k) as real || w == 0.5 / Pow2(k) as real }

  lemma HalvesEvenly(v: Variance, c: Cluster)
    requires SameVariance(v) && |c| > 1
    ensures Alpha(v)(c) == 0.5
  {
    assert v(Left(c)) == v(Right(c)) > 0.0;
    HalfRatio(v(Left(c)));
  }

  lemma HalfRatio(a: real)
    requires a > 0.0
    ensures a / (a + a) == 0.5
  {
    assert 0.5 * (a + a) == a;
  }

  lemma HalfOfPart(w: real, k: nat)
    requires k > 0 && OnePartIn(w, k - 1)
    ensures OnePartIn(Times(0.5, w), k) && OnePartIn(Times(1.0 - 0.5, w), k)
  {
    var p := Pow2(k - 1) as real;
    assert Pow2(k) as real == 2.0 * p;
    assert 0.5 * (1.0 / p) == 1.0 / (2.0 * p);
    assert 0.5 * (0.5 / p) == 0.5 / (2.0 * p);
  }

  /** With equal variances each of n assets ends with one 2^k-th or half of it, where 2^k <= n <= 2^(k+1). */
  lemma {:induction false} EqualVariancesHalve(v: Variance, c: Cluster, k: nat, x: nat)
    requires SameVariance(v) && x in c && Pow2(k) <= |c| <= 2 * Pow2(k)
    ensures OnePartIn(Share(Alpha(v), c, x), k)
    decreases k
  {
    hide Alpha, Times, Share, OnePartIn;
    if |c| <= 1 {
      ShareOutside(Alpha(v), c, x);
      WholeIsPart(k);
    } else {
      SplitsInHalf(c);
      HalvesEvenly(v, c);
      if k == 0 {
        TwoHalves(v, c, x);
      } else if x in Left(c) {
        EqualVariancesHalve(v, Left(c), k - 1, x);
        ShareLeft(Alpha(v), c, x);
        HalfOfPart(Share(Alpha(v), Left(c), x), k);
      } else {
        EqualVariancesHalve(v, Right(c), k - 1, x);
        ShareRight(Alpha(v), c, x);
        HalfOfPart(Share(Alpha(v), Right(c), x), k);
      }
    }
  }

  lemma WholeIsPart(k: nat)
    requires Pow2(k) <= 1
    ensures OnePartIn(1.0, k)
  {}

  lemma TwoHalves(v: Variance, c: Cluster, x: nat)
    requires SameVariance(v) && |c| == 2 && x in c
    ensures OnePartIn(Share(Alpha(v), c, x), 0)
  {
    hide Alpha;
    HalvesEvenly(v, c);
    SplitsInHalf(c);
    if x in Left(c) {
      ShareLeft(Alpha(v), c, x);
      ShareOutside(Alpha(v), Left(c), x);
    } else {
      ShareRight(Alpha(v), c, x);
      ShareOutside(Alpha(v), Right(c), x);
    }
  }

  /** So 2^k assets of equal variance get one 2^k-th each. */
  lemma PowerOfTwoIsEqual(v: Variance, w: nat -> real, order: Cluster, k: nat, x: nat)
    requires SameVariance(v) && NoRepeats(order) && |order| == Pow2(k) && x in order
    requires Total(w, order) == 1.0 && Balanced(v, w, order)
    ensures w(x) == 1.0 / Pow2(k) as real
  {
    hide Alpha, Share, Total, Balanced;
    OnlyBalancedWeights(v, w, order);
    EqualVariancesHalve(v, order, k, x);
    if k > 0 {
      EqualVariancesHalve(v, order, k - 1, x);
      PartsMeet(w(x), k);
    } else {
      ShareOutside(Alpha(v), order, x);
    }
  }

  lemma PartsMeet(w: real, k: nat)
    requires k > 0 && OnePartIn(w, k) && OnePartIn(w, k - 1)
    ensures w == 1.0 / Pow2(k) as real
  {
    var p := Pow2(k - 1) as real;
    assert Pow2(k) as real == 2.0 * p;
    assert 0.5 / p == 1.0 / (2.0 * p);
    assert 1.0 / p > 0.5 / p > 0.5 / (2.0 * p);
  }

  // ----- the stack loop

  /** What the clusters on the stack will still multiply the weight of x by. */
  function StackShare(s: Split, stack: seq<Cluster>, x: nat): real {
    if stack == [] then 1.0 else Times(StackShare(s, stack[..|stack| - 1], x), Share(s, Last(stack), x))
  }

  /** Rounds the stack still needs. */
  function Work(stack: seq<Cluster>): nat {
    if stack == [] then 0 else Work(stack[..|stack| - 1]) + Rounds(Last(stack))
  }

  function Rounds(c: Cluster): nat { if |c| <= 1 then 1 else 2 * |c| - 1 }

  lemma PushShare(s: Split, stack: seq<Cluster>, c: Cluster, x: nat)
    ensures StackShare(s, stack + [c], x) == Times(StackShare(s, stack, x), Share(s, c, x))
  {
    hide Times, Share;
    assert (stack + [c])[..|stack|] == stack;
  }

  lemma PushWork(stack: seq<Cluster>, c: Cluster)
    ensures Work(stack + [c]) == Work(stack) + Rounds(c)
  {
    assert (stack + [c])[..|stack|] == stack;
  }

  lemma SplitNeedsLess(rest: seq<Cluster>, c: Cluster)
    requires |c| > 1
    ensures Work(rest + [Left(c), Right(c)]) < Work(rest + [c])
  {
    PushWork(rest, c);
    PushWork(rest, Left(c));
    PushWork(rest + [Left(c)], Right(c));
    assert rest + [Left(c)] + [Right(c)] == rest + [Left(c), Right(c)];
  }

  /** What one split multiplies the weight of x by. */
  function SplitFactor(s: Split, c: Cluster, x: nat): real {
    if x in Left(c) then s(c) else if x in Right(c) then 1.0 - s(c) else 1.0
  }

  /** The factor of a split and the shares of the halves make up the share of the whole. */
  lemma ShareSplits(s: Split, c: Cluster, x: nat)
    requires |c| > 1 && NoRepeats(c)
    ensures Share(s, c, x) == Times(SplitFactor(s, c, x), Times(Share(s, Left(c), x), Share(s, Right(c), x)))
  {
    hide Share, Times;
    HalvesNoRepeats(c);
    TimesOne(Share(s, Left(c), x));
    TimesOne(Share(s, Right(c), x));
    TimesOne(1.0);
    if x in Left(c) {
      ShareLeft(s, c, x);
      ShareOutside(s, Right(c), x);
    } else {
      ShareOutside(s, Left(c), x);
      if x in Right(c) {
        ShareRight(s, c, x);
      } else {
        ShareOutside(s, Right(c), x);
        ShareOutside(s, c, x);
      }
    }
  }

  /** Splitting a cluster and scaling the weight of x leaves what x will end up with. */
  lemma SplitKeepsProduct(s: Split, rest: seq<Cluster>, c: Cluster, x: nat, w: real)
    requires |c| > 1 && NoRepeats(c)
    ensures Times(Times(w, SplitFactor(s, c, x)), StackShare(s, rest + [Left(c), Right(c)], x))
            == Times(w, StackShare(s, rest + [c], x))
  {
    hide Share, SplitFactor, Times, StackShare;
    var f, r := SplitFactor(s, c, x), StackShare(s, rest, x);
    var l, q := Share(s, Left(c), x), Share(s, Right(c), x);
    PushShare(s, rest, c, x);
    PushShare(s, rest, Left(c), x);
    PushShare(s, rest + [Left(c)], Right(c), x);
    assert rest + [Left(c)] + [Right(c)] == rest + [Left(c), Right(c)];
    ShareSplits(s, c, x);
    TimesAssociates(r, l, q);
    TimesAssociates(w, f, Times(r, Times(l, q)));
    TimesSwaps(f, r, Times(l, q));
  }

  ghost predicate Indices(c: Cluster, n: nat) {
    NoRepeats(c) && forall x :: x in c ==> x < n
  }

  /** `for idx in c: weights[idx] *= k`. */
  method Scale(weights: array<real>, c: Cluster, k: real)
    requires Indices(c, weights.Length)
    modifies weights
    ensures forall x :: 0 <= x < weights.Length ==> weights[x] == (if x in c then Times(old(weights[x]), k) else old(weights[x]))
  {
    for i := 0 to |c|
      invariant forall x :: 0 <= x < weights.Length ==>
                  weights[x] == (if x in c[..i] then Times(old(weights[x]), k) else old(weights[x]))
    {
      assert c[..i + 1] == c[..i] + [c[i]];
      assert c[i] in c;
      assert c == c[..i] + ([c[i]] + c[i + 1..]);
      assert multiset(c) == multiset(c[..i]) + multiset([c[i]] + c[i + 1..]);
      assert c[i] in [c[i]] + c[i + 1..];
      assert multiset(c)[c[i]] == multiset(c[..i])[c[i]] + multiset([c[i]] + c[i + 1..])[c[i]];
      assert c[i] !in c[..i];
      weights[c[i]] := Times(weights[c[i]], k);
    }
    assert c[..|c|] == c;
  }

  lemma TimesByOne()
    ensures forall k :: Times(k, 1.0) == k
  {}

  /** One split: the left half times alpha, the right half times the rest. */
  method SplitCluster(v: Variance, weights: array<real>, cluster: Cluster)
    requires |cluster| > 1 && Indices(cluster, weights.Length)
    modifies weights
    ensures forall x :: 0 <= x < weights.Length ==>
              weights[x] == Times(old(weights[x]), SplitFactor(Alpha(v), cluster, x))
  {
    HalvesNoRepeats(cluster);
    var mid := |cluster| / 2;
    var left, right := cluster[..mid], cluster[mid..];
    assert v(left) > 0.0 && v(right) > 0.0;
    var alpha := 1.0 - v(left) / (v(left) + v(right));
    assert alpha == Alpha(v)(cluster);
    TimesByOne();
    Scale(weights, left, alpha);
    Scale(weights, right, 1.0 - alpha);
  }

  /** Every weight, times what the stack will still give it, is what it must become. */
  ghost predicate OnTrack(s: Split, ws: seq<real>, stack: seq<Cluster>, order: Cluster) {
    forall x :: 0 <= x < |ws| ==> Times(ws[x], StackShare(s, stack, x)) == Share(s, order, x)
  }

  lemma SplitOnTrack(s: Split, ws: seq<real>, ws': seq<real>, rest: seq<Cluster>, c: Cluster, order: Cluster)
    requires |c| > 1 && NoRepeats(c) && OnTrack(s, ws, rest + [c], order) && |ws'| == |ws|
    requires forall x :: 0 <= x < |ws| ==> ws'[x] == Times(ws[x], SplitFactor(s, c, x))
    ensures OnTrack(s, ws', rest + [Left(c), Right(c)], order)
  {
    hide Share, SplitFactor, StackShare, Times;
    forall x | 0 <= x < |ws|
      ensures Times(ws'[x], StackShare(s, rest + [Left(c), Right(c)], x)) == Share(s, order, x)
    {
      SplitKeepsProduct(s, rest, c, x, ws[x]);
    }
  }

  lemma PopOnTrack(s: Split, ws: seq<real>, rest: seq<Cluster>, c: Cluster, order: Cluster)
    requires |c| <= 1 && OnTrack(s, ws, rest + [c], order)
    ensures OnTrack(s, ws, rest, order)
  {
    hide Share, StackShare, Times;
    forall x | 0 <= x < |ws|
      ensures Times(ws[x], StackShare(s, rest, x)) == Share(s, order, x)
    {
      PushShare(s, rest, c, x);
      ShareOutside(s, c, x);
      TimesOne(StackShare(s, rest, x));
    }
  }

  lemma StartOnTrack(s: Split, ws: seq<real>, order: Cluster)
    requires forall x :: 0 <= x < |ws| ==> ws[x] == 1.0
    ensures OnTrack(s, ws, [order], order)
  {
    hide Share, Times;
    assert [] + [order] == [order];
    forall x | 0 <= x < |ws|
      ensures Times(ws[x], StackShare(s, [order], x)) == Share(s, order, x)
    {
      PushShare(s, [], order, x);
      TimesOne(Share(s, order, x));
    }
  }

  method RecursiveBisection(v: Variance, order: Cluster, n: nat) returns (weights: array<real>)
    requires Indices(order, n)
    ensures fresh(weights) && weights.Length == n
    ensures forall x :: 0 <= x < n ==> weights[x] == Share(Alpha(v), order, x)
  {
    weights := new real[n](_ => 1.0);
    var stack: seq<Cluster> := [order];
    StartOnTrack(Alpha(v), weights[..], order);
    while stack != []
      invariant fresh(weights) && weights.Length == n
      invariant forall i :: 0 <= i < |stack| ==> Indices(stack[i], n)
      invariant OnTrack(Alpha(v), weights[..], stack, order)
      decreases Work(stack)
    {
      var cluster := stack[|stack| - 1];
      ghost var was, before := stack, weights[..];
      stack := stack[..|stack| - 1];
      assert was == stack + [cluster];
      if |cluster| <= 1 {
        PopOnTrack(Alpha(v), before, stack, cluster, order);
        PushWork(stack, cluster);
      } else {
        SplitCluster(v, weights, cluster);
        SplitOnTrack(Alpha(v), before, weights[..], stack, cluster, order);
        SplitNeedsLess(stack, cluster);
        HalvesNoRepeats(cluster);
        stack := stack + [Left(cluster), Right(cluster)];
      }
    }
  }

  // ----- the whole optimiser

  datatype OptimizerError = NoAssets | DegenerateWeights

  function At(ws: seq<real>): nat -> real {
    (x: nat) => if x < |ws| then ws[x] else 0.0
  }

  lemma {:induction false} RangeFacts(n: nat)
    ensures |Range(n)| == n && forall i :: 0 <= i < n ==> Range(n)[i] == i
  {
    if n > 0 {
      RangeFacts(n - 1);
    }
  }

  lemma TotalRemove(w: nat -> real, c: Cluster, i: nat)
    requires i < |c|
    ensures Total(w, c) == w(c[i]) + Total(w, c[..i] + c[i + 1..])
  {
    hide Total;
    assert c == (c[..i] + [c[i]]) + c[i + 1..];
    TotalConcat(w, c[..i] + [c[i]], c[i + 1..]);
    TotalConcat(w, c[..i], [c[i]]);
    TotalConcat(w, c[..i], c[i + 1..]);
    TotalOne(w, [c[i]]);
  }

  lemma {:induction false} TotalPermutes(w: nat -> real, c: Cluster, d: Cluster)
    requires multiset(c) == multiset(d)
    ensures Total(w, c) == Total(w, d)
    decreases c
  {
    hide Total;
    assert |multiset(c)| == |multiset(d)|;
    if c == [] {
      assert c == d;
    } else {
      assert c[0] in multiset(d);
      var i :| 0 <= i < |d| && d[i] == c[0];
      MultisetRemove(c, 0);
      MultisetRemove(d, i);
      TotalPermutes(w, c[..0] + c[1..], d[..i] + d[i + 1..]);
      TotalRemove(w, c, 0);
      TotalRemove(w, d, i);
    }
  }

  lemma PermutationOfRange(n: nat, order: Cluster)
    requires multiset(order) == multiset(Range(n))
    ensures Indices(order, n) && |order| == n && forall x :: 0 <= x < n ==> x in order
  {
    RangeFacts(n);
    assert |multiset(order)| == |multiset(Range(n))|;
    forall x | x in order
      ensures x < n
    {
      assert x in multiset(Range(n));
    }
    forall x: nat | x < n
      ensures x in order
    {
      assert Range(n)[x] in multiset(Range(n));
      assert x in multiset(order);
    }
    forall x: nat
      ensures multiset(order)[x] <= 1
    {
      RangeOnce(n, x);
    }
  }

  lemma {:induction false} RangeOnce(n: nat, x: nat)
    ensures multiset(Range(n))[x] <= 1 && (x >= n ==> multiset(Range(n))[x] == 0)
  {
    if n > 0 {
      RangeOnce(n - 1, x);
    }
  }

  /** What the bisection's weights are, over all assets. */
  lemma BisectionFacts(v: Variance, order: Cluster, n: nat, ws: seq<real>)
    requires n > 0 && multiset(order) == multiset(Range(n)) && |ws| == n
    requires forall x :: 0 <= x < n ==> ws[x] == Share(Alpha(v), order, x)
    ensures Total(At(ws), Range(n)) == 1.0 && Balanced(v, At(ws), order)
    ensures forall x :: 0 <= x < n ==> ws[x] > 0.0
  {
    hide Share, Alpha, Total, Balanced;
    PermutationOfRange(n, order);
    OnlyBalancedWeights(v, At(ws), order);
    TotalPermutes(At(ws), order, Range(n));
    forall x | 0 <= x < n
      ensures ws[x] > 0.0
    {
      SharePositive(v, order, x);
    }
  }

  lemma TotalStep(w: nat -> real, i: nat)
    ensures Total(w, Range(i + 1)) == Total(w, Range(i)) + w(i)
  {
    TotalConcat(w, Range(i), [i]);
    TotalOne(w, [i]);
  }

  /** `weights.sum()`. */
  method SumOfWeights(weights: array<real>) returns (total: real)
    ensures total == Total(At(weights[..]), Range(weights.Length))
  {
    total := 0.0;
    for i := 0 to weights.Length
      invariant total == Total(At(weights[..]), Range(i))
    {
      TotalStep(At(weights[..]), i);
      total := total + weights[i];
    }
  }

  /**
   hierarchical_risk_parity: for positive cluster variances the call succeeds, every weight is
   positive, they sum to one, and risk is balanced at every split of a single-linkage order.
   */
  method HierarchicalRiskParity(dist: Distance, v: Variance, n: nat)
    returns (r: Result<seq<real>, OptimizerError>)
    ensures r.Ok? <==> n > 0
    ensures r.Ok? ==> |r.value| == n && Total(At(r.value), Range(n)) == 1.0
                      && forall x :: 0 <= x < n ==> r.value[x] > 0.0
    ensures r.Ok? && SameVariance(v) ==>
              forall k, x :: Pow2(k) <= n <= 2 * Pow2(k) && 0 <= x < n ==> OnePartIn(r.value[x], k)
    ensures r.Ok? ==> exists h, order :: History(dist, n, h) && Last(h) == [order] && Balanced(v, At(r.value), order)
  {
    hide Share, Alpha, Total, Balanced, History;
    if n == 0 {
      return Err(NoAssets);
    }
    var order := QuasiDiagOrder(dist, n);
    PermutationOfRange(n, order);
    var weights := RecursiveBisection(v, order, n);
    var total := SumOfWeights(weights);
    ghost var ws := weights[..];
    BisectionFacts(v, order, n, ws);
    if total <= 0.0 {
      return Err(DegenerateWeights);
    }
    r := Ok(seq(n, i requires 0 <= i < n reads weights => weights[i] / total));
    assert r.value == ws;
    if SameVariance(v) {
      forall k, x | Pow2(k) <= n <= 2 * Pow2(k) && 0 <= x < n
        ensures OnePartIn(ws[x], k)
      {
        EqualVariancesHalve(v, order, k, x);
      }
    }
  }
}
