/**
 What the ledger writes down (engine/core/portfolio.py), against the calls that were
 made: which of them succeed, what each records, and what they do to the cash.
 */
module LedgerRecords {
  import opened Wrappers
  import opened TaxLots
  import opened Ledger
  import WashSales

  /** A buy that the cash pays for, costs included, or a sale of shares that are held. */
  ghost predicate Covered(b: Book, op: Op) {
    match op
    case OpBuy(_, quantity, price, cost, _) => quantity as real * price + cost <= b.cash
    case OpSell(symbol, quantity, _, _, _, _) => quantity <= Held(b, symbol)
    case _ => false
  }

  /** The buys and sales of a run that were covered when they were made. */
  ghost function Traded(cash: real, tm: TaxMethod, days: int, ops: seq<Op>): seq<Op>
    requires forall k :: 0 <= k < |ops| ==> PositiveQuantity(ops[k])
  {
    if ops == [] then []
    else
      var init, op := ops[..|ops| - 1], ops[|ops| - 1];
      Traded(cash, tm, days, init) + (if Covered(Run(cash, tm, days, init).book, op) then [op] else [])
  }

  /** What a trade does to the cash: a buy pays price and costs, a sale takes the price less costs and tax. */
  function FlowOf(op: Op): real {
    match op
    case OpBuy(_, quantity, price, cost, _) => 0.0 - quantity as real * price - cost
    case OpSell(_, quantity, price, cost, tax, _) => quantity as real * price - cost - tax
    case _ => 0.0
  }

  function Flows(ops: seq<Op>): real {
    if ops == [] then 0.0 else Flows(ops[..|ops| - 1]) + FlowOf(ops[|ops| - 1])
  }

  ghost predicate IsRecordOf(t: TradeRecord, op: Op) {
    match op
    case OpBuy(symbol, quantity, price, cost, date) =>
      t.side == BuySide && t.symbol == symbol && t.date == date && t.quantity == quantity && t.price == price && t.cost == cost && t.tax == 0.0
    case OpSell(symbol, quantity, price, cost, tax, date) =>
      t.side == SellSide && t.symbol == symbol && t.date == date && t.quantity == quantity && t.price == price && t.cost == cost && t.tax == tax
    case _ => false
  }

  /** The trade history is the covered calls, one record each, in order. */
  ghost predicate Written(trades: seq<TradeRecord>, done: seq<Op>) {
    |trades| == |done| && forall i :: 0 <= i < |done| ==> IsRecordOf(trades[i], done[i])
  }

  /** A call that is covered is recorded and moves the cash by its flow; any other call leaves history and cash alone. */
  lemma StepWrites(b: Book, op: Op)
    requires Consistent(b) && PositiveQuantity(op)
    ensures var b' := Step(b, op);
            if Covered(b, op) then
              |b'.trades| == |b.trades| + 1 && b.trades <= b'.trades && IsRecordOf(b'.trades[|b.trades|], op) && b'.cash == b.cash + FlowOf(op)
            else b'.trades == b.trades && b'.cash == b.cash
  {
    match op
    case OpBuy(symbol, _, _, _, _) =>
      assert SymbolConsistent(b, symbol);
    case OpSell(symbol, quantity, price, cost, tax, date) =>
      assert SymbolConsistent(b, symbol);
      SellSucceedsIff(b, symbol, quantity, price, cost, tax, date);
    case _ =>
  }

  /** After any run the trade history is the covered calls, and the cash the opening cash plus their flows. */
  lemma {:induction false} RunWrites(cash: real, tm: TaxMethod, days: int, ops: seq<Op>)
    requires forall k :: 0 <= k < |ops| ==> PositiveQuantity(ops[k])
    ensures var b, done := Run(cash, tm, days, ops).book, Traded(cash, tm, days, ops);
            Written(b.trades, done) && b.cash == cash + Flows(done)
    decreases ops
  {
    if ops != [] {
      hide Run, Step, Written, IsRecordOf, Flows, FlowOf, Covered, Consistent;
      WashSales.RunUnfolds(cash, tm, days, ops);
      var init, op := ops[..|ops| - 1], ops[|ops| - 1];
      var b := Run(cash, tm, days, init).book;
      RunWrites(cash, tm, days, init);
      StepWrites(b, op);
      if Covered(b, op) {
        WritesOneMore(b.trades, Step(b, op).trades, Traded(cash, tm, days, init), op);
      } else {
        assert Traded(cash, tm, days, ops) == Traded(cash, tm, days, init);
      }
    }
  }

  lemma WritesOneMore(trades: seq<TradeRecord>, trades': seq<TradeRecord>, done: seq<Op>, op: Op)
    requires Written(trades, done)
    requires |trades'| == |trades| + 1 && trades <= trades' && IsRecordOf(trades'[|trades|], op)
    ensures Written(trades', done + [op]) && Flows(done + [op]) == Flows(done) + FlowOf(op)
  {
    hide IsRecordOf;
    assert (done + [op])[..|done|] == done;
    forall i | 0 <= i < |done + [op]|
      ensures IsRecordOf(trades'[i], (done + [op])[i])
    {
      if i < |done| {
        assert trades'[i] == trades[i];
      }
    }
  }

  // ----- the records of sales

  function Gains(sells: seq<SellRecord>): real {
    if sells == [] then 0.0 else Gains(sells[..|sells| - 1]) + sells[|sells| - 1].gain
  }

  /** A sale records the basis that leaves the open lots and its gain: what it took less that basis, costs and tax. */
  lemma SaleRecordTells(b: Book, symbol: string, quantity: int, price: real, cost: real, tax: real, date: int)
    requires Consistent(b) && quantity > 0 && Sell(b, symbol, quantity, price, cost, tax, date).Ok?
    ensures var b' := Sell(b, symbol, quantity, price, cost, tax, date).value.0;
            |b'.sells| == |b.sells| + 1 && b.sells <= b'.sells &&
            var s := b'.sells[|b.sells|];
            && s.symbol == symbol && s.date == date && s.quantity == quantity && s.price == price
            && s.basis == TotalBasis(b.lots) - TotalBasis(b'.lots)
            && s.gain == quantity as real * price - s.basis - cost - tax
            && b'.realized == b.realized + s.gain
  {
    hide TotalBasis;
    var b' := Sell(b, symbol, quantity, price, cost, tax, date).value.0;
    SellConserves(b, symbol, quantity, price, cost, tax, date);
    assert b'.trades[..|b.trades|] == b.trades;
  }

  /** After any run the realised profit is the sum of the recorded gains. */
  lemma {:induction false} RealizedIsGains(cash: real, tm: TaxMethod, days: int, ops: seq<Op>)
    requires forall k :: 0 <= k < |ops| ==> PositiveQuantity(ops[k])
    ensures Run(cash, tm, days, ops).book.realized == Gains(Run(cash, tm, days, ops).book.sells)
    decreases ops
  {
    if ops != [] {
      hide Consistent;
      var init, op := ops[..|ops| - 1], ops[|ops| - 1];
      RealizedIsGains(cash, tm, days, init);
      StepRealizes(Run(cash, tm, days, init).book, op);
    }
  }

  lemma StepRealizes(b: Book, op: Op)
    requires Consistent(b) && PositiveQuantity(op)
    ensures Step(b, op).realized - b.realized == Gains(Step(b, op).sells) - Gains(b.sells)
  {
    if op.OpSell? && Sell(b, op.symbol, op.quantity, op.price, op.cost, op.tax, op.date).Ok? {
      var sells := Step(b, op).sells;
      assert sells[..|sells| - 1] == b.sells;
    }
  }
}
