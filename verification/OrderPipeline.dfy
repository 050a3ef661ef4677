/**
 Where the order pipeline stops and why (engine/core/order_manager.py), told from
 the cash, the shares held and the answers of the collaborators.
 */
module OrderPipeline {
  import opened Wrappers
  import opened TaxLots
  import opened Ledger
  import opened Products
  import opened Orders

  // ----- how many shares a weight buys

  /** Without a quantity of its own a signal orders the most shares that its weight of the cash pays for. */
  lemma QuantityIsLargest(b: Book, s: Signal, price: real)
    requires s.quantity.None? || s.quantity == Some(0)
    ensures price <= 0.0 ==> QuantityOf(b, s, price) == 0
    ensures price > 0.0 ==> Cost(QuantityOf(b, s, price), price) <= Times(b.cash, s.weight) < Cost(QuantityOf(b, s, price) + 1, price)
  {
    if price > 0.0 {
      hide Cost, FloorDiv, Times;
      FloorDivides(Times(b.cash, s.weight), price);
    }
  }

  lemma FloorDivides(amount: real, price: real)
    requires price > 0.0
    ensures Cost(FloorDiv(amount, price), price) <= amount < Cost(FloorDiv(amount, price) + 1, price)
  {
    hide Cost;
    var x := amount / price;
    CostOrder(FloorDiv(amount, price), x, price);
    CostOrder(FloorDiv(amount, price) + 1, x, price);
    assert Times(x, price) == amount;
  }

  lemma CostOrder(q: int, x: real, price: real)
    requires price > 0.0
    ensures Cost(q, price) <= Times(x, price) <==> q as real <= x
  {
    if q as real <= x {
      assert (x - q as real) * price >= 0.0;
    } else {
      assert (q as real - x) * price > 0.0;
    }
  }

  // ----- validation

  /** An order to buy or sell is valid exactly if the ledger would settle all of it at the given price without costs. */
  lemma ValidIffWouldSettle(b: Book, o: Order, price: real, date: int)
    requires Consistent(b) && !o.side.HOLD?
    ensures IsValidOrder(b, o, price) <==> o.quantity > 0 && Settle(b, o, Fill(price, o.quantity), Costs(0.0, 0.0), date).Ok?
  {
    if o.quantity > 0 && o.side.SELL? {
      SellSucceedsIff(b, o.symbol, o.quantity, price, 0.0, 0.0, date);
    }
  }

  /** The costs before tax exceed the signal's tolerance: a share of the value traded, none of a worthless trade. */
  ghost predicate OverTolerance(s: Signal, value: real, costs: Costs) {
    s.maxCostPct.Some? && (value <= 0.0 || costs.total - costs.tax > s.maxCostPct.value * value)
  }

  lemma TooCostlyIff(s: Signal, quantity: int, price: real, costs: Costs)
    ensures TooCostly(s, quantity, price, costs) <==> OverTolerance(s, Cost(quantity, price), costs)
  {
    var value, c := Cost(quantity, price), costs.total - costs.tax;
    if s.maxCostPct.Some? && value > 0.0 {
      RatioExceedsIff(c, value, s.maxCostPct.value);
    }
  }

  lemma RatioExceedsIff(c: real, value: real, bound: real)
    requires value > 0.0
    ensures c / value > bound <==> c > bound * value
  {
    var x := c / value;
    assert x * value == c;
    assert c - bound * value == (x - bound) * value;
    assert x > bound ==> (x - bound) * value > 0.0;
    assert x <= bound ==> (bound - x) * value >= 0.0;
  }

  /** The order is for shares that the cash pays for, or that are held. */
  ghost predicate Covered(b: Book, side: Orders.Side, symbol: string, quantity: int, price: real) {
    && quantity > 0
    && (side.BUY? ==> quantity as real * price <= b.cash)
    && (side.SELL? ==> quantity <= Held(b, symbol))
  }

  /**
   Exactly when a signal ends rejected, risk-rejected, failed for want of a backend, or executed; nothing but an
   execution touches the book.
   */
  lemma PipelineEndsIn(w: World, b: Book, s: Signal, price: real, date: int)
    requires Consistent(b) && FillsPositive(w)
    ensures var q := QuantityOf(b, s, price);
            var valid := Covered(b, s.side, s.symbol, q, price);
            var refused := OverTolerance(s, q as real * price, w.costOf(q, price)) || !w.riskApproves;
            var d := Process(w, b, s, price, date).0;
            && (d.order.status.Rejected? <==> !valid)
            && (d.order.status.RiskRejected? <==> valid && refused)
            && (d.executions == 0 && d.order.status.Failed? <==> valid && !refused && !w.hasBackend)
            && d.executions == (if valid && !refused && w.hasBackend then 1 else 0)
            && (d.executions == 0 ==> d.book == b)
  {
    var q := QuantityOf(b, s, price);
    TooCostlyIff(s, q, price, w.costOf(q, price));
    assert SymbolConsistent(b, s.symbol);
    hide OverTolerance, TooCostly, Settle, Absorb;
    assert IsValidOrder(b, New(s.symbol, s.side, q), price) <==> Covered(b, s.side, s.symbol, q, price);
    AttemptEndsIn(w, Desk(MoveTo(MoveTo(MoveTo(MoveTo(New(s.symbol, s.side, q), Validated), Costed), RiskApproved), Submitted), b, 0),
                  w.costOf(q, price), date);
  }

  lemma AttemptEndsIn(w: World, d: Desk, costs: Costs, date: int)
    requires Consistent(d.book) && FillsPositive(w)
    ensures var d' := Attempt(w, d, costs, date).0;
            && d'.executions == d.executions + 1
            && !d'.order.status.Rejected? && !d'.order.status.RiskRejected?
            && (d'.order.status.Failed? <==> !w.execute(d.executions).success)
  {}

  // ----- continuations

  /** A continuation that returns with the order still partially filled has used up its retries. */
  lemma {:induction false} StopsOnlyWhenDone(w: World, d: Desk, price: real, left: nat, date: int)
    requires Consistent(d.book) && FillsPositive(w) && Sound(d.order) && Continue(w, d, price, left, date).1.None?
    ensures var d' := Continue(w, d, price, left, date).0;
            && (d'.order.status.PartiallyFilled? ==> d'.executions == d.executions + left)
            && (d.order.status.PartiallyFilled? ==> d'.order.status.PartiallyFilled? || d'.order.status.Filled? || d'.order.status.Failed?)
    decreases left
  {
    hide Continue, Attempt, Consistent, Sound;
    PartialLacks(d.order);
    if d.order.status.PartiallyFilled? && left > 0 {
      var costs := w.costOf(d.order.quantity - FilledSoFar(d.order), price);
      var mid := Attempt(w, d, costs, date).0;
      ContinueTurns(w, d, price, left, date);
      AttemptProgresses(w, d, costs, date);
      ProgressKeeps(d, mid);
      AttemptLeads(w, d, costs, date);
      StopsOnlyWhenDone(w, mid, price, left - 1, date);
      if !mid.order.status.PartiallyFilled? {
        ContinueStops(w, mid, price, left - 1, date);
      }
    } else {
      ContinueStops(w, d, price, left, date);
    }
  }

  lemma PartialLacks(o: Order)
    requires Sound(o)
    ensures o.status.PartiallyFilled? ==> o.quantity - FilledSoFar(o) > 0
  {}

  lemma AttemptLeads(w: World, d: Desk, costs: Costs, date: int)
    requires Consistent(d.book) && FillsPositive(w)
    ensures var d' := Attempt(w, d, costs, date).0;
            && d'.executions == d.executions + 1
            && (d'.order.status.PartiallyFilled? || d'.order.status.Filled? || d'.order.status.Failed?)
  {}

  /** A continue_order call that returns with the order still partially filled made as many executions as it was allowed, and at least one. */
  lemma CallUsesRetries(d: Desk, c: Call)
    requires Consistent(d.book) && FillsPositive(c.w) && Sound(d.order)
    ensures ContinueCall(d, c).Some? ==>
              var made := ContinueCall(d, c).value.executions - d.executions;
              && 0 <= made && (made <= 1 || made <= c.maxRetries)
              && (ContinueCall(d, c).value.order.status.PartiallyFilled? ==> made >= 1 && made >= c.maxRetries)
  {
    hide Continue, Sound, Consistent;
    if ContinueCall(d, c).Some? {
      var reference := PriceOf(d.order, c.price);
      ContinueProgresses(c.w, d, reference, Cap(c.maxRetries), c.date);
      StopsOnlyWhenDone(c.w, d, reference, Cap(c.maxRetries), c.date);
    }
  }

  /** Costs are estimated at the price given, or else at the average price of the fills so far. */
  lemma ReferenceIsAverage(o: Order, price: Option<real>)
    requires Sound(o)
    ensures price.Some? ==> PriceOf(o, price) == price.value
    ensures price.None? ==> Cost(SumQty(o.fills), PriceOf(o, price)) == SumValue(o.fills)
  {}
}
