/**
 The pre-trade risk gate of engine/core/risk_limits.py: aggregated breaches, a
 rolling order-velocity window and a circuit breaker. Amounts are exact.
 */
module RiskGate {
  import opened Wrappers

  datatype Intent = Intent(symbol: string, buy: bool, notional: real, sector: string, assetClass: string)
  datatype Account = Account(totalValue: real, dailyPnl: real, exposures: map<string, real>,
                             sectors: map<string, real>, assetClasses: map<string, real>)
  datatype Limits = Limits(maxSingleOrder: Option<real>, maxPosition: map<string, real>, maxSector: map<string, real>,
                           maxAssetClass: map<string, real>, maxOrders: Option<int>, window: real,
                           maxDailyLoss: Option<real>)
  datatype Breach = CircuitBreaker | DailyLoss | SingleOrder | Position(symbol: string) | Sector(sector: string)
                  | AssetClass(assetClass: string) | Velocity
  datatype Gate = Gate(stamps: seq<real>, tripped: bool)

  function GetOr(m: map<string, real>, k: string): real { if k in m then m[k] else 0.0 }

  function Since(ts: seq<real>, start: real): seq<real> {
    if ts == [] then [] else (if ts[0] >= start then [ts[0]] else []) + Since(ts[1..], start)
  }

  // ----- which limits an order breaks

  predicate LosesTooMuch(l: Limits, a: Account) {
    l.maxDailyLoss.Some? && a.dailyPnl <= -l.maxDailyLoss.value
  }

  predicate TooConcentrated(caps: map<string, real>, held: map<string, real>, k: string, o: Intent, a: Account) {
    a.totalValue > 0.0 && k in caps && (GetOr(held, k) + o.notional) / a.totalValue > caps[k]
  }

  predicate TooFast(l: Limits, g: Gate, now: real) {
    l.maxOrders.Some? && |Since(g.stamps, now - l.window)| >= l.maxOrders.value
  }

  /** The limits that depend on the order and the account alone. */
  predicate Exceeds(l: Limits, o: Intent, a: Account, b: Breach) {
    match b
    case SingleOrder => l.maxSingleOrder.Some? && o.notional > l.maxSingleOrder.value
    case Position(s) => s == o.symbol && o.buy && s in l.maxPosition && GetOr(a.exposures, s) + o.notional > l.maxPosition[s]
    case Sector(s) => s == o.sector && TooConcentrated(l.maxSector, a.sectors, s, o, a)
    case AssetClass(c) => c == o.assetClass && TooConcentrated(l.maxAssetClass, a.assetClasses, c, o, a)
    case _ => false
  }

  /** Each kind of breach, one by one. */
  predicate Breaks(l: Limits, g: Gate, o: Intent, a: Account, now: real, b: Breach) {
    match b
    case CircuitBreaker => g.tripped
    case DailyLoss => !g.tripped && LosesTooMuch(l, a)
    case Velocity => TooFast(l, g, now)
    case _ => Exceeds(l, o, a, b)
  }

  /** An order is approved when it breaks nothing. */
  predicate Approves(l: Limits, g: Gate, o: Intent, a: Account, now: real) {
    && !g.tripped
    && !LosesTooMuch(l, a)
    && !Exceeds(l, o, a, SingleOrder)
    && !Exceeds(l, o, a, Position(o.symbol))
    && !Exceeds(l, o, a, Sector(o.sector))
    && !Exceeds(l, o, a, AssetClass(o.assetClass))
    && !TooFast(l, g, now)
  }

  lemma ApprovesIff(l: Limits, g: Gate, o: Intent, a: Account, now: real)
    ensures Approves(l, g, o, a, now) <==> forall b :: !Breaks(l, g, o, a, now, b)
  {
    if forall b :: !Breaks(l, g, o, a, now, b) {
      assert !Breaks(l, g, o, a, now, CircuitBreaker) && !Breaks(l, g, o, a, now, DailyLoss);
      assert !Breaks(l, g, o, a, now, Velocity) && !Breaks(l, g, o, a, now, SingleOrder);
      assert !Breaks(l, g, o, a, now, Position(o.symbol)) && !Breaks(l, g, o, a, now, Sector(o.sector));
      assert !Breaks(l, g, o, a, now, AssetClass(o.assetClass));
    } else {
      var b :| Breaks(l, g, o, a, now, b);
      assert b.Position? ==> b == Position(o.symbol);
      assert b.Sector? ==> b == Sector(o.sector);
      assert b.AssetClass? ==> b == AssetClass(o.assetClass);
    }
  }

  /** The gate after a check. */
  function After(l: Limits, g: Gate, o: Intent, a: Account, now: real): Gate {
    Gate(if l.maxOrders.None? then g.stamps
         else Since(g.stamps, now - l.window) + (if Approves(l, g, o, a, now) then [now] else []),
         g.tripped || LosesTooMuch(l, a))
  }

  // ----- whole runs

  datatype Event = Check(order: Intent, account: Account, now: real) | Reset

  /** The gate, and the times of all approved orders so far. */
  datatype Trace = Trace(gate: Gate, approved: seq<real>)

  function Step(l: Limits, t: Trace, e: Event): Trace {
    match e
    case Reset => t.(gate := t.gate.(tripped := false))
    case Check(o, a, now) =>
      Trace(After(l, t.gate, o, a, now), t.approved + (if Approves(l, t.gate, o, a, now) then [now] else []))
  }

  function Run(l: Limits, es: seq<Event>): Trace {
    if es == [] then Trace(Gate([], false), []) else Step(l, Run(l, es[..|es| - 1]), es[|es| - 1])
  }

  /** The clock never goes back, and has not passed `now`. */
  ghost predicate ClockUpTo(es: seq<Event>, now: real) {
    es == [] || match es[|es| - 1]
                case Reset => ClockUpTo(es[..|es| - 1], now)
                case Check(_, _, t) => t <= now && ClockUpTo(es[..|es| - 1], t)
  }

  function CountIn(ts: seq<real>, from: real, to: real): nat {
    if ts == [] then 0 else (if from <= ts[0] <= to then 1 else 0) + CountIn(ts[1..], from, to)
  }

  lemma {:induction false} CountConcat(a: seq<real>, b: seq<real>, from: real, to: real)
    ensures CountIn(a + b, from, to) == CountIn(a, from, to) + CountIn(b, from, to)
    decreases a
  {
    if a == [] {
      assert a + b == b;
    } else {
      assert (a + b)[1..] == a[1..] + b;
      CountConcat(a[1..], b, from, to);
    }
  }

  lemma {:induction false} CountAtMost(ts: seq<real>, from: real, to: real)
    ensures CountIn(ts, from, to) <= |ts|
    decreases ts
  {
    if ts != [] {
      CountAtMost(ts[1..], from, to);
    }
  }

  /** Pruning loses no time at or after its start, and adds none. */
  lemma {:induction false} SinceCounts(ts: seq<real>, start: real, from: real, to: real)
    requires start <= from
    ensures CountIn(Since(ts, start), from, to) == CountIn(ts, from, to)
    ensures |Since(ts, start)| <= |ts|
    decreases ts
  {
    if ts != [] {
      SinceCounts(ts[1..], start, from, to);
      if ts[0] >= start {
        assert Since(ts, start)[1..] == Since(ts[1..], start);
      } else {
        assert Since(ts, start) == Since(ts[1..], start);
      }
    }
  }

  /** The gate's list still holds every approval that can matter from `now` on. */
  ghost predicate Remembers(l: Limits, t: Trace, now: real) {
    forall from, to :: now - l.window <= from ==> CountIn(t.gate.stamps, from, to) == CountIn(t.approved, from, to)
  }

  function Cap(l: Limits): nat
    requires l.maxOrders.Some?
  {
    if l.maxOrders.value > 0 then l.maxOrders.value else 0
  }

  lemma CheckRemembers(l: Limits, t: Trace, e: Event)
    requires e.Check? && l.maxOrders.Some? && Remembers(l, t, e.now) && |t.gate.stamps| <= Cap(l)
    ensures Remembers(l, Step(l, t, e), e.now) && |Step(l, t, e).gate.stamps| <= Cap(l)
  {
    var start := e.now - l.window;
    var pruned := Since(t.gate.stamps, start);
    var added := if Approves(l, t.gate, e.order, e.account, e.now) then [e.now] else [];
    forall from, to | start <= from
      ensures CountIn(pruned + added, from, to) == CountIn(t.approved + added, from, to)
    {
      SinceCounts(t.gate.stamps, start, from, to);
      CountConcat(pruned, added, from, to);
      CountConcat(t.approved, added, from, to);
    }
    SinceCounts(t.gate.stamps, start, start, start);
  }

  lemma {:induction false} RunRemembers(l: Limits, es: seq<Event>, now: real)
    requires l.maxOrders.Some? && ClockUpTo(es, now)
    ensures Remembers(l, Run(l, es), now) && |Run(l, es).gate.stamps| <= Cap(l)
    decreases es
  {
    if es != [] {
      var before, e := es[..|es| - 1], es[|es| - 1];
      if e.Check? {
        RunRemembers(l, before, e.now);
        CheckRemembers(l, Run(l, before), e);
      } else {
        RunRemembers(l, before, now);
      }
    }
  }

  /** In every interval as long as the window at most the limit of orders is approved, despite pruning. */
  lemma {:induction false} VelocityBound(l: Limits, es: seq<Event>, now: real, from: real)
    requires l.maxOrders.Some? && l.window >= 0.0 && ClockUpTo(es, now)
    ensures CountIn(Run(l, es).approved, from, from + l.window) <= Cap(l)
    decreases es
  {
    if es != [] {
      var before, e := es[..|es| - 1], es[|es| - 1];
      var t := Run(l, before);
      if e.Reset? {
        VelocityBound(l, before, now, from);
      } else {
        VelocityBound(l, before, e.now, from);
        if Approves(l, t.gate, e.order, e.account, e.now) {
          CountConcat(t.approved, [e.now], from, from + l.window);
          if from <= e.now <= from + l.window {
            RunRemembers(l, es, e.now);
            CountAtMost(Run(l, es).gate.stamps, from, from + l.window);
          } else {
            assert CountIn([e.now], from, from + l.window) == 0;
          }
        } else {
          assert Run(l, es).approved == t.approved;
        }
      }
    }
  }

  /** With a negative window nothing is ever remembered: the velocity limit acts only if it is zero or less. */
  lemma {:induction false} NegativeWindowForgets(l: Limits, es: seq<Event>, now: real)
    requires l.maxOrders.Some? && l.window < 0.0 && ClockUpTo(es, now)
    ensures TooFast(l, Run(l, es).gate, now) <==> l.maxOrders.value <= 0
    decreases es
  {
    AllEarlier(l, es, now);
    SinceDropsAll(Run(l, es).gate.stamps, now - l.window);
  }

  lemma {:induction false} AllEarlier(l: Limits, es: seq<Event>, now: real)
    requires ClockUpTo(es, now)
    ensures forall k :: 0 <= k < |Run(l, es).gate.stamps| ==> Run(l, es).gate.stamps[k] <= now
    decreases es
  {
    if es != [] {
      var before, e := es[..|es| - 1], es[|es| - 1];
      if e.Check? {
        AllEarlier(l, before, e.now);
        SinceBounded(Run(l, before).gate.stamps, e.now - l.window, now);
      } else {
        AllEarlier(l, before, now);
      }
    }
  }

  lemma {:induction false} SinceBounded(ts: seq<real>, start: real, bound: real)
    requires forall k :: 0 <= k < |ts| ==> ts[k] <= bound
    ensures forall k :: 0 <= k < |Since(ts, start)| ==> Since(ts, start)[k] <= bound
    decreases ts
  {
    if ts != [] {
      SinceBounded(ts[1..], start, bound);
    }
  }

  lemma {:induction false} SinceDropsAll(ts: seq<real>, start: real)
    requires forall k :: 0 <= k < |ts| ==> ts[k] < start
    ensures Since(ts, start) == []
    decreases ts
  {
    if ts != [] {
      SinceDropsAll(ts[1..], start);
    }
  }

  // ----- the circuit breaker

  /** Event i trips the breaker. */
  predicate Trips(l: Limits, es: seq<Event>, i: nat)
    requires i < |es|
  {
    es[i].Check? && Breaks(l, Run(l, es[..i]).gate, es[i].order, es[i].account, es[i].now, DailyLoss)
  }

  predicate ApprovedAt(l: Limits, es: seq<Event>, i: nat)
    requires i < |es|
  {
    es[i].Check? && Approves(l, Run(l, es[..i]).gate, es[i].order, es[i].account, es[i].now)
  }

  /** From a trip to the next reset the breaker stays tripped. */
  lemma {:induction false} StaysTripped(l: Limits, es: seq<Event>, i: nat, j: nat)
    requires i < j <= |es| && Trips(l, es, i) && forall k :: i < k < j ==> !es[k].Reset?
    ensures Run(l, es[..j]).gate.tripped
  {
    assert es[..j][..j - 1] == es[..j - 1] && es[..j][j - 1] == es[j - 1];
    if i < j - 1 {
      StaysTripped(l, es, i, j - 1);
    }
  }

  /** No order is approved by the check that trips the breaker, or from there to the next reset. */
  lemma NoApprovalWhileTripped(l: Limits, es: seq<Event>, i: nat, j: nat)
    requires i <= j < |es| && Trips(l, es, i) && forall k :: i < k < j ==> !es[k].Reset?
    ensures !ApprovedAt(l, es, j)
  {
    if i < j {
      StaysTripped(l, es, i, j);
    }
  }

  /** The breaker is on exactly if some check tripped it and no reset came after. */
  lemma {:induction false} TrippedIff(l: Limits, es: seq<Event>)
    ensures Run(l, es).gate.tripped <==>
            exists i :: 0 <= i < |es| && Trips(l, es, i) && forall k :: i < k < |es| ==> !es[k].Reset?
  {
    if Run(l, es).gate.tripped {
      var i := LastTrip(l, es);
    }
    if i :| 0 <= i < |es| && Trips(l, es, i) && forall k :: i < k < |es| ==> !es[k].Reset? {
      StaysTripped(l, es, i, |es|);
      assert es[..|es|] == es;
    }
  }

  lemma {:induction false} LastTrip(l: Limits, es: seq<Event>) returns (i: nat)
    requires Run(l, es).gate.tripped
    ensures i < |es| && Trips(l, es, i) && forall k :: i < k < |es| ==> !es[k].Reset?
  {
    var before, e := es[..|es| - 1], es[|es| - 1];
    if Run(l, before).gate.tripped {
      i := LastTrip(l, before);
      assert before[..i] == es[..i] && before[i] == es[i];
      forall k | i < k < |es|
        ensures !es[k].Reset?
      {
        assert k < |before| ==> before[k] == es[k];
      }
    } else {
      i := |es| - 1;
    }
  }

  // ----- the gate

  class RiskGateObject {
    const limits: Limits
    var stamps: seq<real>
    var tripped: bool

    constructor (limits: Limits)
      ensures this.limits == limits && Value() == Gate([], false)
    {
      this.limits, stamps, tripped := limits, [], false;
    }

    function Value(): Gate
      reads this
    {
      Gate(stamps, tripped)
    }

    method ResetCircuitBreaker()
      modifies this
      ensures Value() == old(Value()).(tripped := false)
    {
      tripped := false;
    }

    /** Breaches that depend on the order and the account alone. */
    method OrderBreaches(o: Intent, a: Account) returns (breaches: seq<Breach>)
      ensures forall b :: b in breaches <==> Exceeds(limits, o, a, b)
    {
      breaches := [];
      if limits.maxSingleOrder.Some? && o.notional > limits.maxSingleOrder.value {
        breaches := breaches + [SingleOrder];
      }
      if o.buy && o.symbol in limits.maxPosition {
        var projected := GetOr(a.exposures, o.symbol) + o.notional;
        if projected > limits.maxPosition[o.symbol] {
          breaches := breaches + [Position(o.symbol)];
        }
      }
      if a.totalValue > 0.0 {
        if o.sector in limits.maxSector {
          var projected := GetOr(a.sectors, o.sector) + o.notional;
          if projected / a.totalValue > limits.maxSector[o.sector] {
            breaches := breaches + [Sector(o.sector)];
          }
        }
        if o.assetClass in limits.maxAssetClass {
          var projected := GetOr(a.assetClasses, o.assetClass) + o.notional;
          if projected / a.totalValue > limits.maxAssetClass[o.assetClass] {
            breaches := breaches + [AssetClass(o.assetClass)];
          }
        }
      }
    }

    /** check: lists exactly the limits the order breaks, and approves when there are none. */
    method Check(o: Intent, a: Account, now: real) returns (approved: bool, breaches: seq<Breach>)
      modifies this
      ensures Value() == After(limits, old(Value()), o, a, now)
      ensures approved <==> Approves(limits, old(Value()), o, a, now)
      ensures forall b :: b in breaches <==> Breaks(limits, old(Value()), o, a, now, b)
    {
      ghost var g := Value();
      var others := OrderBreaches(o, a);
      breaches := [];
      if tripped {
        breaches := [CircuitBreaker];
      } else if limits.maxDailyLoss.Some? && a.dailyPnl <= -limits.maxDailyLoss.value {
        tripped := true;
        breaches := [DailyLoss];
      }
      breaches := breaches + others;
      if limits.maxOrders.Some? {
        stamps := Since(stamps, now - limits.window);
        if |stamps| >= limits.maxOrders.value {
          breaches := breaches + [Velocity];
        }
      }
      assert forall b :: b in breaches <==> Breaks(limits, g, o, a, now, b);
      ApprovesIff(limits, g, o, a, now);
      approved := breaches == [];
      if !approved {
        assert breaches[0] in breaches;
      }
      if limits.maxOrders.Some? && approved {
        stamps := stamps + [now];
      }
    }
  }
}
