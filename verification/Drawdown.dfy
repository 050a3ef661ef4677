/**
 Drawdown analytics: the single-pass episode scan of
 engine/core/drawdown_analytics.py, the curve-based algorithms of
 engine/core/metrics.py, and why they agree. Values are exact.
 */
module Drawdown {
  import opened Wrappers

  datatype Episode = Episode(peak: nat, trough: nat, recovery: Option<nat>, depth: real)

  // ----- definitions

  function Max(a: real, b: real): real { if a >= b then a else b }

  /** The running peak at bar i. */
  function RunMax(v: seq<real>, i: nat): real
    requires i < |v|
  {
    if i == 0 then v[0] else Max(RunMax(v, i - 1), v[i])
  }

  predicate Underwater(v: seq<real>, i: nat)
    requires i < |v|
  {
    v[i] < RunMax(v, i)
  }

  /** A decline from a peak as a fraction of it; zero by convention for a peak that is not positive. */
  function Decline(peak: real, x: real): real {
    if peak > 0.0 then (peak - x) / peak else 0.0
  }

  function DrawdownAt(v: seq<real>, i: nat): real
    requires i < |v|
  {
    Decline(RunMax(v, i), v[i])
  }

  /** The largest drawdown of the first n bars, at least zero. */
  function MaxDrawdown(v: seq<real>, n: nat): real
    requires n <= |v|
  {
    if n == 0 then 0.0 else Max(MaxDrawdown(v, n - 1), DrawdownAt(v, n - 1))
  }

  // ----- the episode scan

  datatype Scan = Scan(episodes: seq<Episode>, peak: nat, trough: nat, inDrawdown: bool)

  function StepScan(v: seq<real>, s: Scan, i: nat): Scan
    requires s.peak < |v| && s.trough < |v| && i < |v|
  {
    if !s.inDrawdown then
      if v[i] < v[s.peak] then s.(inDrawdown := true, trough := i)
      else if v[i] > v[s.peak] then s.(peak := i)
      else s
    else
      var t := if v[i] < v[s.trough] then i else s.trough;
      if v[i] >= v[s.peak] then
        Scan(s.episodes + [Episode(s.peak, t, Some(i), Decline(v[s.peak], v[t]))], i, t, false)
      else s.(trough := t)
  }

  function ScanTo(v: seq<real>, n: nat): (s: Scan)
    requires 1 <= n <= |v|
    ensures s.peak < n && s.trough < n
  {
    if n == 1 then Scan([], 0, 0, false) else StepScan(v, ScanTo(v, n - 1), n - 1)
  }

  /** drawdown_episodes. */
  function Episodes(v: seq<real>): seq<Episode> {
    if |v| < 2 then []
    else
      var s := ScanTo(v, |v|);
      if s.inDrawdown then s.episodes + [Episode(s.peak, s.trough, None, Decline(v[s.peak], v[s.trough]))]
      else s.episodes
  }

  /** Where an episode ends: at its recovery, or never within n bars. */
  function End(e: Episode, n: nat): nat {
    if e.recovery.Some? then e.recovery.value else n
  }

  predicate Inside(e: Episode, k: nat, n: nat) {
    e.peak < k < End(e, n)
  }

  /** What makes an episode of a curve of n bars one. */
  ghost predicate IsEpisode(v: seq<real>, e: Episode, n: nat)
    requires n <= |v|
  {
    && e.peak < e.trough < End(e, n) <= n
    && (e.recovery.Some? ==> e.recovery.value < n && v[e.recovery.value] >= v[e.peak])
    && v[e.peak] == RunMax(v, e.peak)
    && v[e.trough] < v[e.peak]
    && (forall k :: e.peak < k < End(e, n) ==> v[e.trough] <= v[k] <= v[e.peak])
    && (forall k :: e.peak < k < e.trough ==> v[e.trough] < v[k])
    && (forall k :: e.trough <= k < End(e, n) ==> v[k] < v[e.peak])
    && e.depth == Decline(v[e.peak], v[e.trough])
  }

  /** Every episode of the list ends by bar m. */
  ghost predicate EndBy(es: seq<Episode>, m: nat) {
    forall a :: 0 <= a < |es| ==> es[a].recovery.Some? && es[a].recovery.value <= m
  }

  /** Episodes follow one another. */
  ghost predicate Chained(es: seq<Episode>) {
    es == [] || (Chained(es[..|es| - 1]) && EndBy(es[..|es| - 1], es[|es| - 1].peak))
  }

  function InsideCount(es: seq<Episode>, k: nat, n: nat): nat {
    if es == [] then 0
    else InsideCount(es[..|es| - 1], k, n) + (if Inside(es[|es| - 1], k, n) then 1 else 0)
  }

  // ----- the scan finds episodes

  lemma {:induction false} RunMaxFacts(v: seq<real>, i: nat, j: nat)
    requires i <= j < |v|
    ensures RunMax(v, i) <= RunMax(v, j) && v[i] <= RunMax(v, j)
  {
    if i < j {
      RunMaxFacts(v, i, j - 1);
    }
  }

  /** While no bar exceeds the peak the running peak stays. */
  lemma {:induction false} RunMaxHeld(v: seq<real>, p: nat, j: nat)
    requires p <= j < |v| && v[p] == RunMax(v, p) && forall k :: p < k <= j ==> v[k] <= v[p]
    ensures RunMax(v, j) == v[p]
  {
    if p < j {
      RunMaxHeld(v, p, j - 1);
    }
  }

  ghost predicate OpenPart(v: seq<real>, n: nat, s: Scan)
    requires n <= |v|
  {
    && s.peak < n && s.trough < n
    && v[s.peak] == RunMax(v, s.peak)
    && if s.inDrawdown then IsEpisode(v, Episode(s.peak, s.trough, None, Decline(v[s.peak], v[s.trough])), n)
       else forall k :: s.peak < k < n ==> v[k] == v[s.peak]
  }

  ghost predicate ScanOk(v: seq<real>, n: nat, s: Scan)
    requires n <= |v|
  {
    && OpenPart(v, n, s)
    && EndBy(s.episodes, s.peak)
    && Chained(s.episodes)
    && forall a :: 0 <= a < |s.episodes| ==> IsEpisode(v, s.episodes[a], n)
  }

  lemma OpenStep(v: seq<real>, s: Scan, i: nat)
    requires 1 <= i < |v| && OpenPart(v, i, s)
    ensures OpenPart(v, i + 1, StepScan(v, s, i))
    ensures s.inDrawdown && v[i] >= v[s.peak] ==>
              IsEpisode(v, Episode(s.peak, s.trough, Some(i), Decline(v[s.peak], v[s.trough])), i + 1)
  {
    RunMaxHeld(v, s.peak, i - 1);
  }

  /** A recovered episode stays one as the curve goes on. */
  lemma EpisodeStays(v: seq<real>, e: Episode, n: nat)
    requires n < |v| && IsEpisode(v, e, n) && e.recovery.Some?
    ensures IsEpisode(v, e, n + 1)
  {}

  lemma ClosesEpisode(v: seq<real>, s: Scan, i: nat)
    requires 1 <= i < |v| && OpenPart(v, i, s) && s.inDrawdown && v[i] >= v[s.peak]
    ensures StepScan(v, s, i) == Scan(
                                   s.episodes + [Episode(s.peak, s.trough, Some(i), Decline(v[s.peak], v[s.trough]))], i, s.trough, false)
  {}

  lemma ChainedAppend(es: seq<Episode>, e: Episode)
    requires Chained(es) && EndBy(es, e.peak)
    ensures Chained(es + [e])
  {
    assert (es + [e])[..|es|] == es;
  }

  lemma StepKeepsOk(v: seq<real>, s: Scan, i: nat)
    requires 1 <= i < |v| && ScanOk(v, i, s)
    ensures ScanOk(v, i + 1, StepScan(v, s, i))
  {
    hide IsEpisode, RunMax, Decline, Chained;
    OpenStep(v, s, i);
    forall a | 0 <= a < |s.episodes|
      ensures IsEpisode(v, s.episodes[a], i + 1)
    {
      EpisodeStays(v, s.episodes[a], i);
    }
    if s.inDrawdown && v[i] >= v[s.peak] {
      ClosesEpisode(v, s, i);
      ChainedAppend(s.episodes, Episode(s.peak, s.trough, Some(i), Decline(v[s.peak], v[s.trough])));
    }
  }

  lemma {:induction false} ScanIsOk(v: seq<real>, n: nat)
    requires 1 <= n <= |v|
    ensures ScanOk(v, n, ScanTo(v, n))
  {
    if n > 1 {
      hide ScanOk, StepScan;
      ScanIsOk(v, n - 1);
      StepKeepsOk(v, ScanTo(v, n - 1), n - 1);
    }
  }

  /** Every listed episode is one, and they follow one another. */
  lemma EpisodesAreEpisodes(v: seq<real>)
    ensures Chained(Episodes(v))
    ensures forall a :: 0 <= a < |Episodes(v)| ==> IsEpisode(v, Episodes(v)[a], |v|)
  {
    if |v| >= 2 {
      ScanIsOk(v, |v|);
      var s := ScanTo(v, |v|);
      if s.inDrawdown {
        assert Episodes(v)[..|s.episodes|] == s.episodes;
      }
    }
  }

  lemma EpisodeAt(v: seq<real>, a: nat)
    requires a < |Episodes(v)|
    ensures IsEpisode(v, Episodes(v)[a], |v|)
  {
    EpisodesAreEpisodes(v);
  }

  lemma {:induction false} ChainedOrder(es: seq<Episode>, a: nat, b: nat)
    requires Chained(es) && a < b < |es|
    ensures es[a].recovery.Some? && es[a].recovery.value <= es[b].peak
  {
    if b < |es| - 1 {
      ChainedOrder(es[..|es| - 1], a, b);
    }
  }

  /** A bar before the trough of an episode is inside no later one. */
  lemma LaterEpisodesAreLater(v: seq<real>, a: nat, b: nat, k: nat)
    requires a < |Episodes(v)| && b < |Episodes(v)| && Inside(Episodes(v)[a], k, |v|) && k < Episodes(v)[b].trough
    ensures a <= b
  {
    EpisodeAt(v, b);
    if b < a {
      EpisodesAreEpisodes(v);
      ChainedOrder(Episodes(v), b, a);
    }
  }

  // ----- every underwater bar lies in exactly one episode

  lemma {:induction false} NotInsideAfterEnd(es: seq<Episode>, m: nat, k: nat, n: nat)
    requires EndBy(es, m) && m <= k
    ensures InsideCount(es, k, n) == 0
  {
    if es != [] {
      NotInsideAfterEnd(es[..|es| - 1], m, k, n);
    }
  }

  lemma {:induction false} InsideCountOfClosed(es: seq<Episode>, k: nat, n: nat, n': nat)
    requires forall a :: 0 <= a < |es| ==> es[a].recovery.Some?
    ensures InsideCount(es, k, n) == InsideCount(es, k, n')
  {
    if es != [] {
      InsideCountOfClosed(es[..|es| - 1], k, n, n');
    }
  }

  /** Episodes that hold bar k after a scan, the open one included. */
  ghost function Covering(s: Scan, k: nat): nat {
    InsideCount(s.episodes, k, 0) + (if s.inDrawdown && s.peak < k then 1 else 0)
  }

  /** One bar of the scan: bars seen before keep their cover, and the new bar gets one exactly if it is underwater. */
  lemma CoverStep(v: seq<real>, s: Scan, i: nat, k: nat)
    requires 1 <= i < |v| && k <= i && s.peak < i && s.trough < i
    requires EndBy(s.episodes, s.peak) && RunMax(v, i - 1) == v[s.peak]
    ensures var s' := StepScan(v, s, i);
            if k == i then Covering(s', k) == (if Underwater(v, i) then 1 else 0)
            else if s.inDrawdown || k <= s.peak then Covering(s', k) == Covering(s, k)
            else Covering(s', k) <= 1 && Covering(s, k) == 0
  {
    var s' := StepScan(v, s, i);
    if s.peak <= k {
      NotInsideAfterEnd(s.episodes, s.peak, k, 0);
    }
    if s.inDrawdown && v[i] >= v[s.peak] {
      InsideCountAppend(s.episodes, s'.episodes[|s.episodes|], k, 0);
    }
  }

  lemma InsideCountAppend(es: seq<Episode>, e: Episode, k: nat, n: nat)
    ensures InsideCount(es + [e], k, n) == InsideCount(es, k, n) + (if Inside(e, k, n) then 1 else 0)
  {
    assert (es + [e])[..|es|] == es;
  }

  lemma {:induction false} ScanCovers(v: seq<real>, n: nat, k: nat)
    requires 1 <= n <= |v| && k < n
    ensures Covering(ScanTo(v, n), k) <= 1
    ensures Underwater(v, k) ==> Covering(ScanTo(v, n), k) == 1
  {
    if n > 1 {
      var s := ScanTo(v, n - 1);
      PeakIsRunMax(v, n - 1);
      CoverStep(v, s, n - 1, k);
      if k < n - 1 {
        ScanCovers(v, n - 1, k);
      }
    }
  }

  lemma PeakIsRunMax(v: seq<real>, n: nat)
    requires 1 <= n <= |v|
    ensures EndBy(ScanTo(v, n).episodes, ScanTo(v, n).peak) && RunMax(v, n - 1) == v[ScanTo(v, n).peak]
  {
    ScanIsOk(v, n);
    RunMaxHeld(v, ScanTo(v, n).peak, n - 1);
  }

  /** Each bar below the running peak is strictly inside exactly one episode, and no bar is inside two. */
  lemma UnderwaterInExactlyOne(v: seq<real>, k: nat)
    requires k < |v|
    ensures InsideCount(Episodes(v), k, |v|) <= 1
    ensures Underwater(v, k) ==> InsideCount(Episodes(v), k, |v|) == 1
  {
    if |v| >= 2 {
      ScanCovers(v, |v|, k);
      ScanIsOk(v, |v|);
      var s := ScanTo(v, |v|);
      InsideCountOfClosed(s.episodes, k, 0, |v|);
      if s.inDrawdown {
        assert Episodes(v)[..|s.episodes|] == s.episodes;
      }
    }
  }

  /** A bar inside an episode is underwater unless it repeats the peak before the decline starts. */
  lemma InsideIsUnderwaterIff(v: seq<real>, a: nat, k: nat)
    requires a < |Episodes(v)| && k < |v| && Inside(Episodes(v)[a], k, |v|)
    ensures Underwater(v, k) <==> v[k] != v[Episodes(v)[a].peak]
    ensures RunMax(v, k) == v[Episodes(v)[a].peak]
  {
    EpisodesAreEpisodes(v);
    var e := Episodes(v)[a];
    assert IsEpisode(v, e, |v|);
    RunMaxHeld(v, e.peak, k);
  }

  lemma {:induction false} FindInside(es: seq<Episode>, k: nat, n: nat) returns (a: nat)
    requires InsideCount(es, k, n) > 0
    ensures a < |es| && Inside(es[a], k, n)
  {
    if Inside(es[|es| - 1], k, n) {
      a := |es| - 1;
    } else {
      a := FindInside(es[..|es| - 1], k, n);
    }
  }

  // ----- the deepest episode is the maximum drawdown

  function Deepest(es: seq<Episode>): real {
    if es == [] then 0.0 else Max(Deepest(es[..|es| - 1]), es[|es| - 1].depth)
  }

  lemma {:induction false} DeepestFacts(es: seq<Episode>)
    ensures forall a :: 0 <= a < |es| ==> es[a].depth <= Deepest(es)
    ensures Deepest(es) > 0.0 ==> exists a :: 0 <= a < |es| && es[a].depth == Deepest(es)
    ensures Deepest(es) >= 0.0
  {
    if es != [] {
      var init := es[..|es| - 1];
      DeepestFacts(init);
      if Deepest(es) > 0.0 {
        if Deepest(es) == es[|es| - 1].depth {
        } else {
          var a :| 0 <= a < |init| && init[a].depth == Deepest(init);
          assert es[a].depth == Deepest(es);
        }
      }
    }
  }

  lemma {:induction false} MaxDrawdownFacts(v: seq<real>, n: nat)
    requires n <= |v|
    ensures MaxDrawdown(v, n) >= 0.0
    ensures forall k :: 0 <= k < n ==> DrawdownAt(v, k) <= MaxDrawdown(v, n)
    ensures MaxDrawdown(v, n) > 0.0 ==> exists k :: 0 <= k < n && DrawdownAt(v, k) == MaxDrawdown(v, n)
  {
    if n > 0 {
      MaxDrawdownFacts(v, n - 1);
    }
  }

  lemma DeclineOrder(peak: real, x: real, y: real)
    requires x <= y
    ensures Decline(peak, y) <= Decline(peak, x)
    ensures peak > 0.0 && x < y ==> Decline(peak, y) < Decline(peak, x)
  {
    if peak > 0.0 {
      DivideOrder(peak - y, peak - x, peak);
    }
  }

  lemma DivideOrder(a: real, b: real, c: real)
    requires c > 0.0 && a <= b
    ensures a / c <= b / c
    ensures a < b ==> a / c < b / c
  {}

  /** The drawdown of a bar inside an episode is at most the episode's depth, with equality at the trough. */
  lemma InsideDepth(v: seq<real>, a: nat, k: nat)
    requires a < |Episodes(v)| && k < |v| && Inside(Episodes(v)[a], k, |v|)
    ensures DrawdownAt(v, k) <= Episodes(v)[a].depth
    ensures k == Episodes(v)[a].trough ==> DrawdownAt(v, k) == Episodes(v)[a].depth
    ensures k < Episodes(v)[a].trough && Episodes(v)[a].depth > 0.0 ==> DrawdownAt(v, k) < Episodes(v)[a].depth
  {
    EpisodesAreEpisodes(v);
    var e := Episodes(v)[a];
    assert IsEpisode(v, e, |v|);
    InsideIsUnderwaterIff(v, a, k);
    DeclineOrder(v[e.peak], v[e.trough], v[k]);
  }

  lemma NotUnderwaterNoDrawdown(v: seq<real>, k: nat)
    requires k < |v| && !Underwater(v, k)
    ensures DrawdownAt(v, k) == 0.0
  {
    RunMaxFacts(v, k, k);
  }

  /** The deepest episode is the maximum drawdown of the curve, on every curve. */
  lemma DeepestIsMaxDrawdown(v: seq<real>)
    ensures Deepest(Episodes(v)) == MaxDrawdown(v, |v|)
  {
    var es := Episodes(v);
    DeepestFacts(es);
    MaxDrawdownFacts(v, |v|);
    EpisodesAreEpisodes(v);
    if Deepest(es) > 0.0 {
      var a :| 0 <= a < |es| && es[a].depth == Deepest(es);
      assert IsEpisode(v, es[a], |v|);
      InsideDepth(v, a, es[a].trough);
    }
    if MaxDrawdown(v, |v|) > 0.0 {
      var k :| 0 <= k < |v| && DrawdownAt(v, k) == MaxDrawdown(v, |v|);
      if !Underwater(v, k) {
        NotUnderwaterNoDrawdown(v, k);
      } else {
        UnderwaterInExactlyOne(v, k);
        var a := FindInside(es, k, |v|);
        InsideDepth(v, a, k);
      }
    }
  }

  // ----- the maximum drawdown is the worst buy-high, sell-later pair

  lemma {:induction false} RunMaxAttained(v: seq<real>, j: nat) returns (i: nat)
    requires j < |v|
    ensures i <= j && v[i] == RunMax(v, j)
  {
    if j == 0 || RunMax(v, j) == v[j] {
      i := j;
    } else {
      i := RunMaxAttained(v, j - 1);
    }
  }

  lemma HigherPeakDeclinesMore(a: real, m: real, x: real)
    requires 0.0 < a <= m && 0.0 <= x
    ensures (a - x) / a <= (m - x) / m
  {
    var p, q := (a - x) / a, (m - x) / m;
    assert p * a == a - x && q * m == m - x;
    AtMostOne(p, a);
    ScaleUp(p, m - a);
    assert p * m == p * a + p * (m - a);
    Cancel(p, q, m);
  }

  lemma AtMostOne(p: real, a: real)
    requires 0.0 < a && p * a <= a
    ensures p <= 1.0
  {}

  lemma ScaleUp(p: real, d: real)
    requires p <= 1.0 && 0.0 <= d
    ensures p * d <= d
  {}

  lemma Cancel(p: real, q: real, m: real)
    requires 0.0 < m && p * m <= q * m
    ensures p <= q
  {}

  /** From a negative value the decline is the larger the smaller the positive peak. */
  lemma LowerPeakDeclinesMore(m: real, a: real, x: real)
    requires 0.0 < m <= a && x < 0.0
    ensures (a - x) / a <= (m - x) / m
  {
    var p, q := (a - x) / a, (m - x) / m;
    assert p * a == a - x && q * m == m - x;
    AtLeastOne(q, m);
    ScaleDown(q, a - m);
    assert q * a == q * m + q * (a - m);
    Cancel(p, q, a);
  }

  lemma AtLeastOne(q: real, m: real)
    requires 0.0 < m && q * m >= m
    ensures q >= 1.0
  {}

  lemma ScaleDown(q: real, d: real)
    requires q >= 1.0 && 0.0 <= d
    ensures q * d >= d
  {}

  /** The smallest positive value up to bar j. */
  function SmallestPositive(v: seq<real>, j: nat): (m: real)
    requires j < |v| && v[0] > 0.0
    ensures m > 0.0
  {
    if j == 0 then v[0]
    else
      var m := SmallestPositive(v, j - 1);
      if 0.0 < v[j] < m then v[j] else m
  }

  lemma {:induction false} SmallestPositiveIs(v: seq<real>, j: nat) returns (k: nat)
    requires j < |v| && v[0] > 0.0
    ensures k <= j && v[k] == SmallestPositive(v, j)
    ensures forall i :: 0 <= i <= j && v[i] > 0.0 ==> SmallestPositive(v, j) <= v[i]
  {
    if j == 0 {
      k := 0;
    } else {
      k := SmallestPositiveIs(v, j - 1);
      if 0.0 < v[j] < v[k] {
        k := j;
      }
    }
  }

  /** Buying at bar i and selling at bar j loses at most `bound` of what was paid. */
  predicate PairWithin(v: seq<real>, i: nat, j: nat, bound: real)
    requires i < |v| && j < |v|
  {
    v[i] > 0.0 ==> (v[i] - v[j]) / v[i] <= bound
  }

  ghost predicate EveryPairWithin(v: seq<real>, bound: real) {
    forall i, j :: 0 <= i <= j < |v| ==> PairWithin(v, i, j, bound)
  }

  /** No negative bar is further below the smallest positive value before it than the maximum drawdown. */
  ghost predicate NegativesWithin(v: seq<real>, bound: real)
    requires v != [] && v[0] > 0.0
  {
    forall j :: 0 <= j < |v| && v[j] < 0.0 ==> Decline(SmallestPositive(v, j), v[j]) <= bound
  }

  lemma PairIsWithin(v: seq<real>, i: nat, j: nat)
    requires v != [] && v[0] > 0.0 && i <= j < |v| && NegativesWithin(v, MaxDrawdown(v, |v|))
    ensures PairWithin(v, i, j, MaxDrawdown(v, |v|))
  {
    hide MaxDrawdown, SmallestPositive;
    if v[i] > 0.0 {
      if v[j] >= 0.0 {
        MaxDrawdownFacts(v, |v|);
        RunMaxFacts(v, i, j);
        HigherPeakDeclinesMore(v[i], RunMax(v, j), v[j]);
        assert DrawdownAt(v, j) <= MaxDrawdown(v, |v|);
      } else {
        var k := SmallestPositiveIs(v, j);
        LowerPeakDeclinesMore(SmallestPositive(v, j), v[i], v[j]);
        assert Decline(SmallestPositive(v, j), v[j]) <= MaxDrawdown(v, |v|);
      }
    }
  }

  /** Some pair always loses as much as the maximum drawdown. */
  lemma SomePairAttains(v: seq<real>)
    requires v != [] && v[0] > 0.0
    ensures exists i, j :: 0 <= i <= j < |v| && v[i] > 0.0 && (v[i] - v[j]) / v[i] == MaxDrawdown(v, |v|)
  {
    MaxDrawdownFacts(v, |v|);
    if MaxDrawdown(v, |v|) > 0.0 {
      var j :| 0 <= j < |v| && DrawdownAt(v, j) == MaxDrawdown(v, |v|);
      var i := RunMaxAttained(v, j);
      RunMaxFacts(v, 0, j);
      assert v[i] > 0.0 && (v[i] - v[j]) / v[i] == MaxDrawdown(v, |v|);
    } else {
      assert (v[0] - v[0]) / v[0] == 0.0;
    }
  }

  /**
   On a curve that starts above zero the maximum drawdown is the worst buy-high, sell-later
   pair exactly if no negative bar lies further below the smallest positive value before it.
   */
  lemma WorstPairIff(v: seq<real>)
    requires v != [] && v[0] > 0.0
    ensures EveryPairWithin(v, MaxDrawdown(v, |v|)) <==> NegativesWithin(v, MaxDrawdown(v, |v|))
  {
    hide MaxDrawdown, SmallestPositive;
    var bound := MaxDrawdown(v, |v|);
    if NegativesWithin(v, bound) {
      forall i, j | 0 <= i <= j < |v|
        ensures PairWithin(v, i, j, bound)
      {
        PairIsWithin(v, i, j);
      }
    }
    if EveryPairWithin(v, bound) {
      forall j | 0 <= j < |v| && v[j] < 0.0
        ensures Decline(SmallestPositive(v, j), v[j]) <= bound
      {
        var k := SmallestPositiveIs(v, j);
        assert PairWithin(v, k, j, bound);
      }
    }
  }

  /** So on every curve without negative values, and with a loss that some pair attains. */
  lemma MaxDrawdownIsWorstPair(v: seq<real>)
    requires v != [] && v[0] > 0.0 && forall k :: 0 <= k < |v| ==> v[k] >= 0.0
    ensures EveryPairWithin(v, MaxDrawdown(v, |v|))
    ensures exists i, j :: 0 <= i <= j < |v| && v[i] > 0.0 && (v[i] - v[j]) / v[i] == MaxDrawdown(v, |v|)
  {
    WorstPairIff(v);
    SomePairAttains(v);
  }

  /** A curve that fails: 1, 2, -2 has maximum drawdown 2, and the pair 1, -2 loses 3. */
  lemma NegativeValueBreaksWorstPair()
    ensures !EveryPairWithin([1.0, 2.0, -2.0], MaxDrawdown([1.0, 2.0, -2.0], 3))
  {
    var v := [1.0, 2.0, -2.0];
    assert RunMax(v, 0) == 1.0 && RunMax(v, 1) == 2.0 && RunMax(v, 2) == 2.0;
    assert DrawdownAt(v, 0) == 0.0 && DrawdownAt(v, 1) == 0.0 && DrawdownAt(v, 2) == 2.0;
    assert MaxDrawdown(v, 1) == 0.0 && MaxDrawdown(v, 2) == 0.0 && MaxDrawdown(v, 3) == 2.0;
    assert !PairWithin(v, 0, 2, 2.0);
  }

  // ----- time to recovery, twice

  /** The place of the first episode of maximal depth. */
  function FirstDeepest(es: seq<Episode>): (a: nat)
    requires es != []
    ensures a < |es|
  {
    if |es| == 1 then 0
    else
      var a := FirstDeepest(es[..|es| - 1]);
      if es[|es| - 1].depth > es[a].depth then |es| - 1 else a
  }

  lemma {:induction false} FirstDeepestFacts(es: seq<Episode>)
    requires es != []
    ensures forall b :: 0 <= b < |es| ==> es[b].depth <= es[FirstDeepest(es)].depth
    ensures forall b :: 0 <= b < FirstDeepest(es) ==> es[b].depth < es[FirstDeepest(es)].depth
  {
    if |es| > 1 {
      FirstDeepestFacts(es[..|es| - 1]);
    }
  }

  /** time_to_recovery: None while the deepest episode is open. */
  function TimeToRecovery(v: seq<real>): Option<int> {
    var es := Episodes(v);
    if es == [] then Some(0)
    else
      var e := es[FirstDeepest(es)];
      if e.recovery.None? then None else Some(e.recovery.value - e.trough)
  }

  function DrawdownCurve(v: seq<real>): seq<real> {
    seq(|v|, i requires 0 <= i < |v| => DrawdownAt(v, i))
  }

  /** numpy's argmax: the first place of the maximum. */
  function ArgMax(c: seq<real>): (i: nat)
    requires c != []
    ensures i < |c|
  {
    if |c| == 1 then 0
    else
      var i := ArgMax(c[..|c| - 1]);
      if c[|c| - 1] > c[i] then |c| - 1 else i
  }

  lemma {:induction false} ArgMaxFacts(c: seq<real>)
    requires c != []
    ensures forall k :: 0 <= k < |c| ==> c[k] <= c[ArgMax(c)]
    ensures forall k :: 0 <= k < ArgMax(c) ==> c[k] < c[ArgMax(c)]
  {
    if |c| > 1 {
      ArgMaxFacts(c[..|c| - 1]);
    }
  }

  /** The bars from `from` on until the first that reaches `level`. */
  function FirstReaching(v: seq<real>, from: nat, level: real): Option<nat>
    requires from <= |v|
    decreases |v| - from
  {
    if from == |v| then None else if v[from] >= level then Some(from) else FirstReaching(v, from + 1, level)
  }

  /** _max_drawdown_recovery on the drawdown curve. */
  function MaxDrawdownRecovery(v: seq<real>): Option<int> {
    if v == [] then None
    else
      var c := DrawdownCurve(v);
      var i := ArgMax(c);
      if c[i] == 0.0 then Some(0)
      else
        var r := FirstReaching(v, i + 1, RunMax(v, i));
        if r.Some? then Some(r.value - i) else None
  }

  lemma {:induction false} FirstReachingIs(v: seq<real>, from: nat, level: real, r: nat)
    requires from <= r <= |v| && (forall k :: from <= k < r ==> v[k] < level) && (r < |v| ==> v[r] >= level)
    ensures FirstReaching(v, from, level) == if r < |v| then Some(r) else None
    decreases r - from
  {
    if from < r {
      FirstReachingIs(v, from + 1, level, r);
    }
  }

  ghost predicate IsFirstDeepest(es: seq<Episode>, d: nat) {
    && d < |es|
    && (forall b :: 0 <= b < |es| ==> es[b].depth <= es[d].depth)
    && (forall b :: 0 <= b < d ==> es[b].depth < es[d].depth)
  }

  /** Before the trough of the first deepest episode every drawdown is smaller. */
  lemma EarlierIsShallower(v: seq<real>, d: nat, k: nat)
    requires IsFirstDeepest(Episodes(v), d) && Episodes(v)[d].depth > 0.0 && k < Episodes(v)[d].trough && k < |v|
    ensures DrawdownAt(v, k) < Episodes(v)[d].depth
  {
    if !Underwater(v, k) {
      NotUnderwaterNoDrawdown(v, k);
    } else {
      UnderwaterInExactlyOne(v, k);
      var a := FindInside(Episodes(v), k, |v|);
      InsideDepth(v, a, k);
      LaterEpisodesAreLater(v, a, d, k);
    }
  }

  /** At the trough of the first deepest episode the drawdown is the depth, and nowhere is it more. */
  lemma TroughIsMaximum(v: seq<real>, d: nat)
    requires IsFirstDeepest(Episodes(v), d)
    ensures Episodes(v)[d].trough < |v| && DrawdownAt(v, Episodes(v)[d].trough) == Episodes(v)[d].depth
    ensures Episodes(v)[d].depth > 0.0 ==> Episodes(v)[d].depth == MaxDrawdown(v, |v|)
  {
    EpisodeAt(v, d);
    InsideDepth(v, d, Episodes(v)[d].trough);
    DeepestIsMaxDrawdown(v);
    DeepestFacts(Episodes(v));
  }

  /** The curve's maximum is first reached at the trough of the first deepest episode. */
  lemma TroughIsArgMax(v: seq<real>, d: nat)
    requires IsFirstDeepest(Episodes(v), d) && Episodes(v)[d].depth > 0.0
    ensures ArgMax(DrawdownCurve(v)) == Episodes(v)[d].trough
    ensures DrawdownCurve(v)[Episodes(v)[d].trough] == Episodes(v)[d].depth
  {
    var c, t := DrawdownCurve(v), Episodes(v)[d].trough;
    TroughIsMaximum(v, d);
    MaxDrawdownFacts(v, |v|);
    ArgMaxFacts(c);
    var m := ArgMax(c);
    assert c[m] == DrawdownAt(v, m) && c[t] == DrawdownAt(v, t);
    if m < t {
      EarlierIsShallower(v, d, m);
    }
  }

  /** With a positive maximum drawdown the two recovery times are the same. */
  lemma RecoveryTimesAgree(v: seq<real>)
    requires MaxDrawdown(v, |v|) > 0.0
    ensures TimeToRecovery(v) == MaxDrawdownRecovery(v)
  {
    var es := Episodes(v);
    DeepestIsMaxDrawdown(v);
    DeepestFacts(es);
    FirstDeepestFacts(es);
    RecoveryTimesAgreeAt(v, FirstDeepest(es));
  }

  lemma RecoveryTimesAgreeAt(v: seq<real>, d: nat)
    requires IsFirstDeepest(Episodes(v), d) && Episodes(v)[d].depth > 0.0 && d == FirstDeepest(Episodes(v))
    ensures TimeToRecovery(v) == MaxDrawdownRecovery(v)
  {
    var e := Episodes(v)[d];
    TroughIsArgMax(v, d);
    EpisodeAt(v, d);
    RunMaxHeld(v, e.peak, e.trough);
    FirstReachingIs(v, e.trough + 1, v[e.peak], End(e, |v|));
  }

  ghost predicate Nondecreasing(v: seq<real>) {
    forall i :: 1 <= i < |v| ==> v[i - 1] <= v[i]
  }

  lemma {:induction false} NondecreasingScan(v: seq<real>, n: nat)
    requires 1 <= n <= |v| && Nondecreasing(v)
    ensures ScanTo(v, n).episodes == [] && !ScanTo(v, n).inDrawdown
  {
    if n > 1 {
      NondecreasingScan(v, n - 1);
      ScanIsOk(v, n - 1);
      var s := ScanTo(v, n - 1);
      assert v[n - 2] == v[s.peak] && v[n - 2] <= v[n - 1];
    }
  }

  /** There is an episode exactly when the curve declines somewhere. */
  lemma NoEpisodesIff(v: seq<real>)
    ensures Episodes(v) == [] <==> Nondecreasing(v)
  {
    if Nondecreasing(v) {
      if v != [] { NondecreasingScan(v, |v|); }
    } else {
      var i :| 1 <= i < |v| && v[i] < v[i - 1];
      RunMaxFacts(v, i - 1, i);
      UnderwaterInExactlyOne(v, i);
    }
  }

  /** The two recovery times agree exactly on nonempty curves that never decline or whose maximum drawdown is positive. */
  lemma RecoveryTimesAgreeIff(v: seq<real>)
    ensures TimeToRecovery(v) == MaxDrawdownRecovery(v) <==> v != [] && (Nondecreasing(v) || MaxDrawdown(v, |v|) > 0.0)
  {
    NoEpisodesIff(v);
    MaxDrawdownFacts(v, |v|);
    if MaxDrawdown(v, |v|) > 0.0 {
      RecoveryTimesAgree(v);
    } else if v != [] {
      var c := DrawdownCurve(v);
      ArgMaxFacts(c);
      RunMaxFacts(v, 0, 0);
      assert c[0] == DrawdownAt(v, 0) == 0.0;
      assert c[ArgMax(c)] == DrawdownAt(v, ArgMax(c)) == 0.0;
      if Episodes(v) != [] {
        EpisodesAreEpisodes(v);
        assert IsEpisode(v, Episodes(v)[FirstDeepest(Episodes(v))], |v|);
      }
    }
  }

  /** In particular they agree on every nonempty curve that starts above zero. */
  lemma RecoveryTimesAgreeOnPositiveStart(v: seq<real>)
    requires v != [] && v[0] > 0.0
    ensures TimeToRecovery(v) == MaxDrawdownRecovery(v)
  {
    RecoveryTimesAgreeIff(v);
    if !Nondecreasing(v) {
      var i :| 1 <= i < |v| && v[i] < v[i - 1];
      RunMaxFacts(v, i - 1, i);
      RunMaxFacts(v, 0, i);
      MaxDrawdownFacts(v, |v|);
      DeclineOrder(RunMax(v, i), v[i], RunMax(v, i));
      assert DrawdownAt(v, i) > 0.0;
    }
  }

  // ----- the loops

  method DrawdownEpisodes(equity: seq<real>) returns (episodes: seq<Episode>)
    ensures episodes == Episodes(equity)
    ensures forall k :: 0 <= k < |equity| && Underwater(equity, k) ==> InsideCount(episodes, k, |equity|) == 1
  {
    forall k | 0 <= k < |equity|
      ensures Underwater(equity, k) ==> InsideCount(Episodes(equity), k, |equity|) == 1
    {
      UnderwaterInExactlyOne(equity, k);
    }
    episodes := [];
    if |equity| < 2 {
      return;
    }
    var peakValue, peakIdx, troughIdx, troughValue, inDrawdown := equity[0], 0, 0, equity[0], false;
    for i := 1 to |equity|
      invariant peakIdx < |equity| && troughIdx < |equity|
      invariant ScanTo(equity, i) == Scan(episodes, peakIdx, troughIdx, inDrawdown)
      invariant peakValue == equity[peakIdx] && troughValue == equity[troughIdx]
    {
      var v := equity[i];
      if !inDrawdown {
        if v < peakValue {
          inDrawdown, troughValue, troughIdx := true, v, i;
        } else if v > peakValue {
          peakValue, peakIdx := v, i;
        }
      } else {
        if v < troughValue {
          troughValue, troughIdx := v, i;
        }
        if v >= peakValue {
          var depth := if peakValue > 0.0 then (peakValue - troughValue) / peakValue else 0.0;
          episodes := episodes + [Episode(peakIdx, troughIdx, Some(i), depth)];
          inDrawdown, peakValue, peakIdx := false, v, i;
        }
      }
    }
    if inDrawdown {
      var depth := if peakValue > 0.0 then (peakValue - troughValue) / peakValue else 0.0;
      episodes := episodes + [Episode(peakIdx, troughIdx, None, depth)];
    }
  }

  /** compute_max_drawdown reports the deepest episode, as a percentage. */
  method ComputeMaxDrawdown(equity: seq<real>) returns (pct: real)
    ensures pct == Deepest(Episodes(equity)) * 100.0
  {
    DeepestIsMaxDrawdown(equity);
    if equity == [] {
      return 0.0;
    }
    var peak, maxDd := equity[0], 0.0;
    for i := 0 to |equity|
      invariant peak == RunMax(equity, if i == 0 then 0 else i - 1)
      invariant maxDd == MaxDrawdown(equity, i)
    {
      peak := Max(peak, equity[i]);
      var dd := if peak > 0.0 then (peak - equity[i]) / peak else 0.0;
      maxDd := Max(maxDd, dd);
    }
    return maxDd * 100.0;
  }

  /** The drawdown curve of metrics.py is the underwater curve of drawdown_analytics.py with the sign turned. */
  method ComputeCurves(equity: seq<real>) returns (drawdowns: seq<real>, underwater: seq<real>)
    ensures drawdowns == DrawdownCurve(equity)
    ensures |underwater| == |drawdowns| && forall i :: 0 <= i < |underwater| ==> underwater[i] == -drawdowns[i]
  {
    drawdowns, underwater := [], [];
    if equity == [] {
      return;
    }
    var peak := equity[0];
    for i := 0 to |equity|
      invariant peak == RunMax(equity, if i == 0 then 0 else i - 1)
      invariant |drawdowns| == i && forall k :: 0 <= k < i ==> drawdowns[k] == DrawdownAt(equity, k)
      invariant |underwater| == i && forall k :: 0 <= k < i ==> underwater[k] == -drawdowns[k]
    {
      var v := equity[i];
      peak := Max(peak, v);
      drawdowns := drawdowns + [if peak > 0.0 then (peak - v) / peak else 0.0];
      underwater := underwater + [if peak <= 0.0 then 0.0 else (v - peak) / peak];
      if peak > 0.0 {
        assert (v - peak) / peak == -((peak - v) / peak) by {
          assert ((v - peak) / peak + (peak - v) / peak) * peak == 0.0;
        }
      }
    }
  }

  /** _max_drawdown_recovery on the curve: recovery of the running peak before the first maximum. */
  method RecoverFromMaxDrawdown(values: seq<real>, curve: seq<real>) returns (bars: Option<int>)
    requires curve == DrawdownCurve(values)
    ensures bars == MaxDrawdownRecovery(values)
  {
    if values == [] || curve == [] {
      return None;
    }
    var i := ArgMax(curve);
    if curve[i] == 0.0 {
      return Some(0);
    }
    var peak := values[0];
    for k := 0 to i + 1
      invariant peak == RunMax(values, if k == 0 then 0 else k - 1)
    {
      peak := Max(peak, values[k]);
    }
    for k := i + 1 to |values|
      invariant FirstReaching(values, k, peak) == FirstReaching(values, i + 1, peak)
    {
      if values[k] >= peak {
        return Some(k - i);
      }
    }
    return None;
  }
}
