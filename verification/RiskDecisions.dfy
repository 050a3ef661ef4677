/**
 What the risk gate decides (engine/core/risk_limits.py), told from the profit, the
 notionals, the exposures and the times of earlier approvals.
 */
module RiskDecisions {
  import opened Wrappers
  import opened RiskGate

  /** The day's loss is at or beyond the limit. */
  ghost predicate AtLossLimit(l: Limits, a: Account) {
    l.maxDailyLoss.Some? && a.dailyPnl + l.maxDailyLoss.value <= 0.0
  }

  /** The exposure after the order: what is held under the key, if anything, plus the order. */
  function Afterwards(held: map<string, real>, k: string, o: Intent): real {
    o.notional + if k in held then held[k] else 0.0
  }

  /** Every limit on the size of the order and on what it adds to is kept; shares are of the total value. */
  ghost predicate WithinSizes(l: Limits, o: Intent, a: Account) {
    && (l.maxSingleOrder.Some? ==> o.notional <= l.maxSingleOrder.value)
    && (o.buy && o.symbol in l.maxPosition ==> Afterwards(a.exposures, o.symbol, o) <= l.maxPosition[o.symbol])
    && (a.totalValue > 0.0 && o.sector in l.maxSector ==>
          Afterwards(a.sectors, o.sector, o) <= l.maxSector[o.sector] * a.totalValue)
    && (a.totalValue > 0.0 && o.assetClass in l.maxAssetClass ==>
          Afterwards(a.assetClasses, o.assetClass, o) <= l.maxAssetClass[o.assetClass] * a.totalValue)
  }

  lemma ShareWithinIff(part: real, total: real, cap: real)
    requires total > 0.0
    ensures part / total > cap <==> part > cap * total
  {
    var x := part / total;
    assert x * total == part;
    assert part - cap * total == (x - cap) * total;
    if x > cap {
      assert (x - cap) * total > 0.0;
    } else {
      assert (cap - x) * total >= 0.0;
    }
  }

  lemma ConcentrationIff(caps: map<string, real>, held: map<string, real>, k: string, o: Intent, a: Account)
    ensures TooConcentrated(caps, held, k, o, a)
            <==> a.totalValue > 0.0 && k in caps && Afterwards(held, k, o) > caps[k] * a.totalValue
  {
    if a.totalValue > 0.0 && k in caps {
      ShareWithinIff(GetOr(held, k) + o.notional, a.totalValue, caps[k]);
    }
  }

  /** An order is approved exactly if the breaker is off, the day's loss is short of its limit, all sizes are kept and it is not too fast. */
  lemma ApprovedIff(l: Limits, g: Gate, o: Intent, a: Account, now: real)
    ensures Approves(l, g, o, a, now)
            <==> !g.tripped && !AtLossLimit(l, a) && WithinSizes(l, o, a) && !TooFast(l, g, now)
  {
    ConcentrationIff(l.maxSector, a.sectors, o.sector, o, a);
    ConcentrationIff(l.maxAssetClass, a.assetClasses, o.assetClass, o, a);
    hide TooConcentrated;
  }

  // ----- the breaker

  /** Event i is a check that finds the loss at its limit. */
  ghost predicate FindsLoss(l: Limits, es: seq<Event>, i: nat)
    requires i < |es|
  {
    es[i].Check? && AtLossLimit(l, es[i].account)
  }

  ghost predicate NoResetAfter(es: seq<Event>, i: nat) {
    forall k :: i < k < |es| ==> !es[k].Reset?
  }

  /** The breaker is on exactly if some check since the last reset found the loss at its limit. */
  lemma {:induction false} TrippedByLossIff(l: Limits, es: seq<Event>)
    ensures Run(l, es).gate.tripped <==> exists i :: 0 <= i < |es| && FindsLoss(l, es, i) && NoResetAfter(es, i)
    decreases es
  {
    if es != [] {
      var init, last := es[..|es| - 1], |es| - 1;
      TrippedByLossIff(l, init);
      if es[last].Reset? {
        assert forall i :: 0 <= i < last ==> !NoResetAfter(es, i);
      } else {
        assert NoResetAfter(es, last);
        forall i | 0 <= i < last
          ensures FindsLoss(l, init, i) && NoResetAfter(init, i) <==> FindsLoss(l, es, i) && NoResetAfter(es, i)
        {
          assert init[i] == es[i];
          assert forall k :: i < k < last ==> init[k] == es[k];
        }
        assert FindsLoss(l, es, last) <==> AtLossLimit(l, es[last].account);
      }
    }
  }

  /** From a check that finds the loss at its limit to the next reset nothing is approved. */
  lemma LossStopsOrders(l: Limits, es: seq<Event>, i: nat, j: nat)
    requires i <= j < |es| && FindsLoss(l, es, i) && forall k :: i < k < j ==> !es[k].Reset?
    ensures !ApprovedAt(l, es, j)
  {
    if i < j {
      var before := es[..j];
      assert before[i] == es[i] && forall k :: i < k < j ==> before[k] == es[k];
      assert FindsLoss(l, before, i) && NoResetAfter(before, i);
      TrippedByLossIff(l, before);
    }
  }

  // ----- the velocity window

  /** Pruning keeps exactly the times from its start on. */
  lemma {:induction false} SinceIsCount(ts: seq<real>, start: real, to: real)
    requires forall k :: 0 <= k < |ts| ==> ts[k] <= to
    ensures |Since(ts, start)| == CountIn(ts, start, to)
    decreases ts
  {
    if ts != [] {
      SinceIsCount(ts[1..], start, to);
    }
  }

  /** After any run under a nondecreasing clock the velocity limit stops an order exactly if that many were approved in the window up to now. */
  lemma TooFastIff(l: Limits, es: seq<Event>, now: real)
    requires l.maxOrders.Some? && l.window >= 0.0 && ClockUpTo(es, now)
    ensures TooFast(l, Run(l, es).gate, now) <==> CountIn(Run(l, es).approved, now - l.window, now) >= l.maxOrders.value
  {
    AllEarlier(l, es, now);
    SinceIsCount(Run(l, es).gate.stamps, now - l.window, now);
    RunRemembers(l, es, now);
  }
}
