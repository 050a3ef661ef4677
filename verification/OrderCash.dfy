/**
 What whole lives of an order do to the money of the ledger (engine/core/order_manager.py):
 cash, realised profit and trade history, slice by slice.
 */
module OrderCash {
  import opened Wrappers
  import opened TaxLots
  import opened Ledger
  import opened Orders

  /** A fill that was reconciled, with the costs of its execution. */
  datatype Slice = Slice(fill: Fill, costs: Costs, date: int)

  function FillsOf(ss: seq<Slice>): seq<Fill> {
    if ss == [] then [] else FillsOf(ss[..|ss| - 1]) + [ss[|ss| - 1].fill]
  }

  function Fees(ss: seq<Slice>): real {
    if ss == [] then 0.0 else Fees(ss[..|ss| - 1]) + ss[|ss| - 1].costs.total
  }

  // ----- which slices are executed

  ghost function SliceOf(w: World, d: Desk, costs: Costs, date: int): seq<Slice> {
    var f := w.execute(d.executions);
    if f.success then [Slice(Fill(f.price, f.quantity), costs, date)] else []
  }

  ghost function ContinueSlices(w: World, d: Desk, price: real, left: nat, date: int): seq<Slice>
    requires Consistent(d.book) && FillsPositive(w)
    decreases left
  {
    var remaining := d.order.quantity - FilledSoFar(d.order);
    if !d.order.status.PartiallyFilled? || left == 0 || remaining <= 0 then []
    else
      var costs := w.costOf(remaining, price);
      var r := Attempt(w, d, costs, date);
      AttemptKeepsBook(w, d, costs, date);
      SliceOf(w, d, costs, date) + (if r.1.Some? then [] else ContinueSlices(w, r.0, price, left - 1, date))
  }

  ghost function LifeSlices(w: World, b: Book, s: Signal, price: real, date: int, calls: seq<Call>): seq<Slice>
    requires Consistent(b) && FillsPositive(w) && forall i :: 0 <= i < |calls| ==> FillsPositive(calls[i].w)
    requires Life(w, b, s, price, date, calls).Some?
    decreases calls
  {
    if calls == [] then
      var d := Desk(New(s.symbol, s.side, QuantityOf(b, s, price)), b, 0);
      if Process(w, b, s, price, date).0.executions == 0 then [] else SliceOf(w, d, w.costOf(d.order.quantity, price), date)
    else
      var init, c := calls[..|calls| - 1], calls[|calls| - 1];
      var before := Life(w, b, s, price, date, init).value;
      LifeSlices(w, b, s, price, date, init)
      + ContinueSlices(c.w, before, PriceOf(before.order, c.price), Cap(c.maxRetries), c.date)
  }

  // ----- what slices do to the money

  /** Cash pays or takes every fill at its price and pays all costs once; a sale realises what it takes less the basis it gives up. */
  ghost predicate Pays(b: Book, b': Book, side: Orders.Side, ss: seq<Slice>) {
    match side
    case BUY => b'.cash == b.cash - SumValue(FillsOf(ss)) - Fees(ss) && b'.realized == b.realized
    case SELL =>
      && b'.cash == b.cash + SumValue(FillsOf(ss)) - Fees(ss)
      && b'.realized == b.realized + SumValue(FillsOf(ss)) - Fees(ss) - (TotalBasis(b.lots) - TotalBasis(b'.lots))
    case HOLD => b' == b
  }

  /** The trade that records a slice: a buy books all costs as costs, a sell books the tax apart. */
  ghost predicate Records(t: TradeRecord, symbol: string, side: Orders.Side, s: Slice) {
    && t.symbol == symbol && t.date == s.date && t.quantity == s.fill.quantity && t.price == s.fill.price
    && (side.BUY? ==> t.side == BuySide && t.cost == s.costs.total && t.tax == 0.0)
    && (side.SELL? ==> t.side == SellSide && t.tax == s.costs.tax && t.cost + t.tax == s.costs.total)
  }

  /** The history grows by one trade for each slice, in order. */
  ghost predicate Recorded(b: Book, b': Book, symbol: string, side: Orders.Side, ss: seq<Slice>) {
    if side.HOLD? then b' == b
    else
      && |b'.trades| == |b.trades| + |ss| && b.trades <= b'.trades
      && forall i :: 0 <= i < |ss| ==> Records(b'.trades[|b.trades| + i], symbol, side, ss[i])
  }

  lemma {:induction false} SlicesConcat(a: seq<Slice>, c: seq<Slice>)
    ensures Fees(a + c) == Fees(a) + Fees(c)
    ensures FillsOf(a + c) == FillsOf(a) + FillsOf(c)
    decreases c
  {
    if c == [] {
      assert a + c == a;
    } else {
      assert (a + c)[..|a + c| - 1] == a + c[..|c| - 1];
      SlicesConcat(a, c[..|c| - 1]);
    }
  }

  lemma {:induction false} ValueConcat(a: seq<Fill>, c: seq<Fill>)
    ensures SumValue(a + c) == SumValue(a) + SumValue(c)
    ensures SumQty(a + c) == SumQty(a) + SumQty(c)
    decreases c
  {
    if c == [] {
      assert a + c == a;
    } else {
      assert (a + c)[..|a + c| - 1] == a + c[..|c| - 1];
      ValueConcat(a, c[..|c| - 1]);
    }
  }

  lemma PaysTransitive(a: Book, b: Book, c: Book, side: Orders.Side, m: seq<Slice>, n: seq<Slice>)
    requires Pays(a, b, side, m) && Pays(b, c, side, n)
    ensures Pays(a, c, side, m + n)
  {
    SlicesConcat(m, n);
    ValueConcat(FillsOf(m), FillsOf(n));
  }

  lemma RecordedTransitive(a: Book, b: Book, c: Book, symbol: string, side: Orders.Side, m: seq<Slice>, n: seq<Slice>)
    requires Recorded(a, b, symbol, side, m) && Recorded(b, c, symbol, side, n)
    ensures Recorded(a, c, symbol, side, m + n)
  {
    if !side.HOLD? {
      forall i | 0 <= i < |m + n|
        ensures Records(c.trades[|a.trades| + i], symbol, side, (m + n)[i])
      {
        if i < |m| {
          assert c.trades[|a.trades| + i] == b.trades[|a.trades| + i];
        } else {
          assert c.trades[|a.trades| + i] == c.trades[|b.trades| + (i - |m|)];
        }
      }
    }
  }

  lemma NoSlices(b: Book, symbol: string, side: Orders.Side)
    ensures Pays(b, b, side, []) && Recorded(b, b, symbol, side, [])
  {}

  lemma OneSlice(s: Slice)
    ensures FillsOf([s]) == [s.fill] && Fees([s]) == s.costs.total && SumValue([s.fill]) == Cost(s.fill.quantity, s.fill.price)
  {
    assert [s][..0] == [] && [s.fill][..0] == [];
  }

  lemma SettlePays(b: Book, o: Order, f: Fill, costs: Costs, date: int)
    requires Consistent(b) && f.quantity > 0 && Settle(b, o, f, costs, date).Ok?
    ensures var b', ss := Settle(b, o, f, costs, date).value, [Slice(f, costs, date)];
            Pays(b, b', o.side, ss) && Recorded(b, b', o.symbol, o.side, ss)
  {
    OneSlice(Slice(f, costs, date));
    if o.side.SELL? {
      hide TotalBasis;
      var b' := Settle(b, o, f, costs, date).value;
      SellConserves(b, o.symbol, f.quantity, f.price, costs.total - costs.tax, costs.tax, date);
      assert b'.trades[..|b'.trades| - 1] == b.trades;
    }
  }

  lemma AttemptPays(w: World, d: Desk, costs: Costs, date: int)
    requires Consistent(d.book) && FillsPositive(w) && Attempt(w, d, costs, date).1.None?
    ensures var d', ss := Attempt(w, d, costs, date).0, SliceOf(w, d, costs, date);
            && Pays(d.book, d'.book, d.order.side, ss) && Recorded(d.book, d'.book, d.order.symbol, d.order.side, ss)
            && d'.order.fills == d.order.fills + FillsOf(ss)
            && d'.order.symbol == d.order.symbol && d'.order.side == d.order.side && d'.order.quantity == d.order.quantity
  {
    hide Settle, Pays, Recorded, Consistent;
    var f := w.execute(d.executions);
    if f.success {
      SettlePays(d.book, d.order, Fill(f.price, f.quantity), costs, date);
      OneSlice(Slice(Fill(f.price, f.quantity), costs, date));
    } else {
      NoSlices(d.book, d.order.symbol, d.order.side);
    }
  }

  lemma {:induction false} ContinuePays(w: World, d: Desk, price: real, left: nat, date: int)
    requires Consistent(d.book) && FillsPositive(w) && Continue(w, d, price, left, date).1.None?
    ensures var d', ss := Continue(w, d, price, left, date).0, ContinueSlices(w, d, price, left, date);
            && Pays(d.book, d'.book, d.order.side, ss) && Recorded(d.book, d'.book, d.order.symbol, d.order.side, ss)
            && d'.order.fills == d.order.fills + FillsOf(ss)
            && d'.order.symbol == d.order.symbol && d'.order.side == d.order.side && d'.order.quantity == d.order.quantity
    decreases left
  {
    hide Continue, Attempt, Pays, Recorded, Fees, SumValue, SliceOf;
    var remaining := d.order.quantity - FilledSoFar(d.order);
    if !d.order.status.PartiallyFilled? || left == 0 || remaining <= 0 {
      ContinueStops(w, d, price, left, date);
      NoSlices(d.book, d.order.symbol, d.order.side);
    } else {
      var costs := w.costOf(remaining, price);
      var mid := Attempt(w, d, costs, date).0;
      ContinueTurns(w, d, price, left, date);
      AttemptPays(w, d, costs, date);
      ContinuePays(w, mid, price, left - 1, date);
      var last := Continue(w, mid, price, left - 1, date).0;
      var m, n := SliceOf(w, d, costs, date), ContinueSlices(w, mid, price, left - 1, date);
      PaysTransitive(d.book, mid.book, last.book, d.order.side, m, n);
      RecordedTransitive(d.book, mid.book, last.book, d.order.symbol, d.order.side, m, n);
      SlicesConcat(m, n);
    }
  }

  lemma ProcessPays(w: World, b: Book, s: Signal, price: real, date: int)
    requires Consistent(b) && FillsPositive(w) && Life(w, b, s, price, date, []).Some?
    ensures var d, ss := Life(w, b, s, price, date, []).value, LifeSlices(w, b, s, price, date, []);
            && Pays(b, d.book, s.side, ss) && Recorded(b, d.book, s.symbol, s.side, ss)
            && d.order.fills == FillsOf(ss) && d.order.symbol == s.symbol && d.order.side == s.side
  {
    hide Pays, Recorded, Settle, Consistent;
    var o := New(s.symbol, s.side, QuantityOf(b, s, price));
    NoSlices(b, s.symbol, s.side);
    if Process(w, b, s, price, date).0.executions > 0 {
      var ready := MoveTo(MoveTo(MoveTo(MoveTo(o, Validated), Costed), RiskApproved), Submitted);
      AttemptPays(w, Desk(ready, b, 0), w.costOf(o.quantity, price), date);
    }
  }

  /**
   After any life of an order: the fills are those of its executed slices, cash has paid (or taken) each at its
   price and every slice's costs once, a sale has realised the difference to the basis sold, and the history
   shows one trade for each slice.
   */
  lemma {:induction false} LifePays(w: World, b: Book, s: Signal, price: real, date: int, calls: seq<Call>)
    requires Consistent(b) && FillsPositive(w) && forall i :: 0 <= i < |calls| ==> FillsPositive(calls[i].w)
    requires Life(w, b, s, price, date, calls).Some?
    ensures var d, ss := Life(w, b, s, price, date, calls).value, LifeSlices(w, b, s, price, date, calls);
            && Pays(b, d.book, s.side, ss) && Recorded(b, d.book, s.symbol, s.side, ss)
            && d.order.fills == FillsOf(ss) && d.order.symbol == s.symbol && d.order.side == s.side
    decreases calls
  {
    if calls == [] {
      ProcessPays(w, b, s, price, date);
    } else {
      hide Process, Continue, ContinueSlices, Pays, Recorded, Fees, SumValue, Sound;
      var init, c := calls[..|calls| - 1], calls[|calls| - 1];
      LifePays(w, b, s, price, date, init);
      var before, after := Life(w, b, s, price, date, init).value, Life(w, b, s, price, date, calls).value;
      var reference := PriceOf(before.order, c.price);
      ContinuePays(c.w, before, reference, Cap(c.maxRetries), c.date);
      var m, n := LifeSlices(w, b, s, price, date, init), ContinueSlices(c.w, before, reference, Cap(c.maxRetries), c.date);
      PaysTransitive(b, before.book, after.book, s.side, m, n);
      RecordedTransitive(b, before.book, after.book, s.symbol, s.side, m, n);
      SlicesConcat(m, n);
    }
  }

  /** The k-th slice of a continuation is costed for what the order still lacks by then. */
  lemma {:induction false} SlicesAreCosted(w: World, d: Desk, price: real, left: nat, date: int, k: nat)
    requires Consistent(d.book) && FillsPositive(w) && Sound(d.order)
    requires Continue(w, d, price, left, date).1.None? && k < |ContinueSlices(w, d, price, left, date)|
    ensures var ss := ContinueSlices(w, d, price, left, date);
            ss[k].costs == w.costOf(d.order.quantity - FilledSoFar(d.order) - SumQty(FillsOf(ss[..k])), price)
            && ss[k].date == date
    decreases left
  {
    hide Continue, Attempt, Consistent, Sound, SumQty, FillsOf, ContinueSlices;
    var costs := w.costOf(d.order.quantity - FilledSoFar(d.order), price);
    var mid := Attempt(w, d, costs, date).0;
    SlicesUnfold(w, d, price, left, date);
    ContinueTurns(w, d, price, left, date);
    AttemptProgresses(w, d, costs, date);
    AttemptFills(w, d, costs, date);
    NoFills();
    var ss, m, n := ContinueSlices(w, d, price, left, date), SliceOf(w, d, costs, date), ContinueSlices(w, mid, price, left - 1, date);
    if k < |m| {
      assert ss[..k] == [];
    } else {
      ProgressKeeps(d, mid);
      SlicesAreCosted(w, mid, price, left - 1, date, k - |m|);
      assert ss[..k] == m + n[..k - |m|];
      SlicesConcat(m, n[..k - |m|]);
      ValueConcat(FillsOf(m), FillsOf(n[..k - |m|]));
    }
  }

  lemma SlicesUnfold(w: World, d: Desk, price: real, left: nat, date: int)
    requires Consistent(d.book) && FillsPositive(w)
    requires Continue(w, d, price, left, date).1.None? && ContinueSlices(w, d, price, left, date) != []
    ensures d.order.status.PartiallyFilled? && left > 0 && d.order.quantity - FilledSoFar(d.order) > 0
    ensures var costs := w.costOf(d.order.quantity - FilledSoFar(d.order), price);
            var r := Attempt(w, d, costs, date);
            && r.1.None? && Consistent(r.0.book)
            && ContinueSlices(w, d, price, left, date) == SliceOf(w, d, costs, date) + ContinueSlices(w, r.0, price, left - 1, date)
  {
    hide Attempt, SliceOf, Continue;
    var costs := w.costOf(d.order.quantity - FilledSoFar(d.order), price);
    if d.order.status.PartiallyFilled? && left > 0 && d.order.quantity - FilledSoFar(d.order) > 0 {
      ContinueTurns(w, d, price, left, date);
    }
  }

  lemma NoFills()
    ensures FillsOf([]) == [] && SumQty([]) == 0
  {}

  lemma AttemptFills(w: World, d: Desk, costs: Costs, date: int)
    requires Consistent(d.book) && FillsPositive(w)
    ensures var d' := Attempt(w, d, costs, date).0;
            && FilledSoFar(d'.order) == FilledSoFar(d.order) + SumQty(FillsOf(SliceOf(w, d, costs, date)))
            && d'.order.quantity == d.order.quantity
  {
    var f := w.execute(d.executions);
    if f.success {
      OneSlice(Slice(Fill(f.price, f.quantity), costs, date));
      assert SumQty([Fill(f.price, f.quantity)][..0]) == 0 by {
        assert [Fill(f.price, f.quantity)][..0] == [];
      }
    }
  }
}
