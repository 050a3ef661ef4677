/**
 The average cost that a position carries (engine/core/portfolio.py): a buy keeps
 it in step with the lots, a sell does not rebase it.
 */
module AverageCost {
  import opened Wrappers
  import opened Sums
  import opened TaxLots
  import opened Ledger

  /** The position's average cost times its quantity is the basis of its lots. */
  ghost predicate AverageMatches(b: Book, symbol: string) {
    symbol in b.positions ==> Cost(b.positions[symbol].quantity, b.positions[symbol].avgCost) == Basis(LotsOf(b, symbol))
  }

  lemma AverageCostIs(p: Position, quantity: int, price: real)
    requires p.quantity + quantity > 0
    ensures Cost(p.quantity + quantity, AverageCost(p, quantity, price)) == Cost(p.quantity, p.avgCost) + Cost(quantity, price)
  {
    var n, sum := (p.quantity + quantity) as real, Cost(p.quantity, p.avgCost) + Cost(quantity, price);
    assert n * (sum / n) == sum;
  }

  /** A buy keeps the average cost right, wash-sale adjustment included. */
  lemma BuyKeepsAverage(b: Book, symbol: string, quantity: int, price: real, cost: real, date: int)
    requires Consistent(b) && quantity > 0 && AverageMatches(b, symbol)
    requires BuyOf(b, symbol, quantity, price, cost, date).Ok?
    ensures AverageMatches(BuyOf(b, symbol, quantity, price, cost, date).value, symbol)
  {
    hide AverageCost, Cost;
    assert SymbolConsistent(b, symbol);
    var b' := BuyOf(b, symbol, quantity, price, cost, date).value;
    var adjusted := AdjustedPrice(price, WashOfBuy(b, symbol, quantity, date), quantity);
    QtyConcat(LotsOf(b, symbol), [Lot(b.nextId, adjusted, date, quantity)]);
    if symbol in b.positions {
      HeldIsPositive(b, symbol);
      AverageCostIs(b.positions[symbol], quantity, adjusted);
    }
  }


  // ----- what a sale of whole lots consumes

  /** Selling exactly the first k lots in order consumes their basis. */
  lemma {:induction false} PrefixBasis(lots: seq<Lot>, queue: seq<Lot>, k: nat, date: int)
    requires AllPositive(queue) && k <= |queue|
    ensures TakenBasis(Consume(lots, queue, Qty(queue[..k]), date).taken) == Basis(queue[..k])
    decreases k
  {
    hide Cost;
    if k > 0 {
      var rest := Deduct(lots, queue[0].id, queue[0].quantity);
      assert queue[..k][1..] == queue[1..][..k - 1];
      QtyNonNegative(queue[1..][..k - 1]);
      assert Qty(queue[..k]) == queue[0].quantity + Qty(queue[1..][..k - 1]);
      PrefixBasis(rest, queue[1..], k - 1, date);
      var t := TakeFrom(queue[0], queue[0].quantity, date);
      var more := Consume(rest, queue[1..], Qty(queue[1..][..k - 1]), date).taken;
      assert Consume(lots, queue, Qty(queue[..k]), date).taken == [t] + more;
      assert ([t] + more)[1..] == more;
    }
  }

  lemma PrefixSplit(queue: seq<Lot>, k: nat)
    requires k < |queue|
    ensures Qty(queue[..k + 1]) == Qty(queue[..k]) + queue[k].quantity
    ensures Basis(queue[..k + 1]) == Basis(queue[..k]) + Cost(queue[k].quantity, queue[k].price)
  {
    assert queue[..k + 1] == queue[..k] + [queue[k]];
    QtyConcat(queue[..k], [queue[k]]);
    assert [queue[k]][1..] == [];
  }

  lemma CostCancels(n: int, p: real, q: real)
    requires n > 0 && Cost(n, p) == Cost(n, q)
    ensures p == q
  {}

  /** If every prefix costs the average, so does every lot. */
  lemma LotCostsAverage(queue: seq<Lot>, k: nat, avg: real)
    requires AllPositive(queue) && k < |queue|
    requires Basis(queue[..k]) == Cost(Qty(queue[..k]), avg) && Basis(queue[..k + 1]) == Cost(Qty(queue[..k + 1]), avg)
    ensures queue[k].price == avg
  {
    PrefixSplit(queue, k);
    CostSub(Qty(queue[..k + 1]), Qty(queue[..k]), avg);
    CostCancels(queue[k].quantity, queue[k].price, avg);
  }

  ghost predicate AllAt(lots: seq<Lot>, avg: real) {
    forall l :: l in lots ==> l.price == avg
  }

  lemma {:induction false} UniformTaken(lots: seq<Lot>, queue: seq<Lot>, quantity: int, date: int, avg: real)
    requires AllAt(queue, avg)
    ensures var ts := Consume(lots, queue, quantity, date).taken; TakenBasis(ts) == Cost(TakenQty(ts), avg)
    decreases queue
  {
    hide Cost;
    if quantity > 0 && queue != [] {
      var amount := Min(quantity, queue[0].quantity);
      var after := Deduct(lots, queue[0].id, amount);
      UniformTaken(after, queue[1..], quantity - amount, date, avg);
      var t, more := TakeFrom(queue[0], amount, date), Consume(after, queue[1..], quantity - amount, date).taken;
      assert ([t] + more)[1..] == more;
      CostSub(amount + TakenQty(more), amount, avg);
    } else {
      ZeroCost(avg);
    }
  }

  lemma ZeroCost(p: real)
    ensures Cost(0, p) == 0.0
  {}

  lemma LotsRemove(lots: seq<Lot>, i: nat)
    requires i < |lots|
    ensures Basis(lots) == Cost(lots[i].quantity, lots[i].price) + Basis(lots[..i] + lots[i + 1..])
    ensures Qty(lots) == lots[i].quantity + Qty(lots[..i] + lots[i + 1..])
  {
    hide Cost, Basis, Qty;
    PrefixSplit(lots, i);
    assert lots == lots[..i + 1] + lots[i + 1..];
    QtyConcat(lots[..i + 1], lots[i + 1..]);
    QtyConcat(lots[..i], lots[i + 1..]);
  }

  lemma {:induction false} LotsPermute(a: seq<Lot>, b: seq<Lot>)
    requires multiset(a) == multiset(b)
    ensures Basis(a) == Basis(b) && Qty(a) == Qty(b)
    decreases a
  {
    hide Cost, Basis, Qty;
    assert |multiset(a)| == |multiset(b)|;
    if a == [] {
      assert a == b;
    } else {
      assert a[0] in multiset(b);
      var i :| 0 <= i < |b| && b[i] == a[0];
      MultisetRemove(a, 0);
      MultisetRemove(b, i);
      LotsPermute(a[..0] + a[1..], b[..i] + b[i + 1..]);
      LotsRemove(a, 0);
      LotsRemove(b, i);
    }
  }

  // ----- when a sell keeps the average right

  /** A partial sell keeps it right exactly if what it consumes costs the average. */
  lemma SellKeepsAverage(b: Book, symbol: string, q: int, price: real, cost: real, tax: real, date: int)
    requires Consistent(b) && AverageMatches(b, symbol) && symbol in b.positions && 0 < q < b.positions[symbol].quantity
    ensures Sell(b, symbol, q, price, cost, tax, date).Ok?
    ensures AverageMatches(Sell(b, symbol, q, price, cost, tax, date).value.0, symbol)
            <==> TakenBasis(ConsumeLots(LotsOf(b, symbol), b.tm, q, date).taken) == Cost(q, b.positions[symbol].avgCost)
  {
    hide Cost;
    assert SymbolConsistent(b, symbol);
    SellSucceedsIff(b, symbol, q, price, cost, tax, date);
    SaleFacts(LotsOf(b, symbol), b.tm, q, date);
    CostSub(b.positions[symbol].quantity, q, b.positions[symbol].avgCost);
  }

  /** Every partial sell leaves the average right. */
  ghost predicate SellsKeepAverage(b: Book, symbol: string, price: real, cost: real, tax: real, date: int)
    requires symbol in b.positions
  {
    forall q :: 0 < q < b.positions[symbol].quantity && Sell(b, symbol, q, price, cost, tax, date).Ok? ==>
                AverageMatches(Sell(b, symbol, q, price, cost, tax, date).value.0, symbol)
  }

  lemma PrefixCostsAverage(b: Book, symbol: string, price: real, cost: real, tax: real, date: int, k: nat)
    requires Consistent(b) && AverageMatches(b, symbol) && symbol in b.positions
    requires SellsKeepAverage(b, symbol, price, cost, tax, date) && k <= |Ordered(LotsOf(b, symbol), b.tm)|
    ensures var queue := Ordered(LotsOf(b, symbol), b.tm);
            Basis(queue[..k]) == Cost(Qty(queue[..k]), b.positions[symbol].avgCost)
  {
    hide Cost;
    var lots := LotsOf(b, symbol);
    var queue := Ordered(lots, b.tm);
    assert SymbolConsistent(b, symbol);
    OrderedFacts(lots, b.tm);
    OrderedPositive(lots, b.tm);
    LotsPermute(queue, lots);
    if k == 0 {
      ZeroCost(b.positions[symbol].avgCost);
    } else if k == |queue| {
      assert queue[..k] == queue;
    } else {
      var q := Qty(queue[..k]);
      assert queue == queue[..k] + queue[k..];
      QtyConcat(queue[..k], queue[k..]);
      QtyNonNegative(queue[..k]);
      QtyNonNegative(queue[k..]);
      SellKeepsAverage(b, symbol, q, price, cost, tax, date);
      PrefixBasis(lots, queue, k, date);
    }
  }

  lemma OrderedPositive(lots: seq<Lot>, tm: TaxMethod)
    requires AllPositive(lots)
    ensures AllPositive(Ordered(lots, tm))
    ensures forall l :: l in Ordered(lots, tm) <==> l in lots
  {
    OrderedFacts(lots, tm);
    assert forall l :: l in lots <==> l in multiset(lots);
    assert forall l :: l in Ordered(lots, tm) <==> l in multiset(Ordered(lots, tm));
    forall i | 0 <= i < |Ordered(lots, tm)|
      ensures Ordered(lots, tm)[i].quantity > 0
    {
      assert Ordered(lots, tm)[i] in lots;
    }
  }

  /** Every partial sell leaves the average right exactly if every lot of the symbol was bought at the average. */
  lemma SellKeepsAverageIff(b: Book, symbol: string, price: real, cost: real, tax: real, date: int)
    requires Consistent(b) && AverageMatches(b, symbol) && symbol in b.positions
    ensures SellsKeepAverage(b, symbol, price, cost, tax, date)
            <==> AllAt(LotsOf(b, symbol), b.positions[symbol].avgCost)
  {
    hide Cost, Basis, Sell;
    var lots, avg := LotsOf(b, symbol), b.positions[symbol].avgCost;
    var queue := Ordered(lots, b.tm);
    assert SymbolConsistent(b, symbol);
    OrderedPositive(lots, b.tm);
    if SellsKeepAverage(b, symbol, price, cost, tax, date) {
      forall l | l in queue
        ensures l.price == avg
      {
        var k :| 0 <= k < |queue| && queue[k] == l;
        PrefixCostsAverage(b, symbol, price, cost, tax, date, k);
        PrefixCostsAverage(b, symbol, price, cost, tax, date, k + 1);
        LotCostsAverage(queue, k, avg);
      }
    }
    if AllAt(lots, avg) {
      forall q | 0 < q < b.positions[symbol].quantity && Sell(b, symbol, q, price, cost, tax, date).Ok?
        ensures AverageMatches(Sell(b, symbol, q, price, cost, tax, date).value.0, symbol)
      {
        SellKeepsAverage(b, symbol, q, price, cost, tax, date);
        UniformTaken(lots, queue, q, date, avg);
        SaleFacts(lots, b.tm, q, date);
      }
    }
  }

  /** What a book holds of one symbol. */
  ghost predicate Shows(b: Book, symbol: string, cash: real, lots: seq<Lot>, p: Position) {
    && Consistent(b) && b.tm == Fifo && b.sells == [] && b.cash == cash && b.nextId == |lots|
    && LotsOf(b, symbol) == lots && symbol in b.positions && b.positions[symbol] == p
  }

  lemma FirstBuy(b: Book, date: int)
    requires b == Opening(100.0, Fifo, 30)
    ensures Consistent(b) && Shows(Step(b, OpBuy("A", 1, 10.0, 0.0, date)), "A", 90.0, [Lot(0, 10.0, date, 1)], Position(1, 10.0, 0.0))
  {
    assert Consistent(b);
    StepConsistent(b, OpBuy("A", 1, 10.0, 0.0, date));
  }

  lemma SecondBuy(b: Book, date: int)
    requires Shows(b, "A", 90.0, [Lot(0, 10.0, date, 1)], Position(1, 10.0, 0.0))
    ensures Shows(Step(b, OpBuy("A", 1, 20.0, 0.0, date)), "A", 70.0,
                  [Lot(0, 10.0, date, 1), Lot(1, 20.0, date, 1)], Position(2, 15.0, 0.0))
  {
    StepConsistent(b, OpBuy("A", 1, 20.0, 0.0, date));
  }

  lemma BasisOfTwo(lots: seq<Lot>)
    requires |lots| == 2
    ensures Basis(lots) == Cost(lots[0].quantity, lots[0].price) + Cost(lots[1].quantity, lots[1].price)
  {
    assert lots[1..][1..] == [];
    assert Basis(lots[1..][1..]) == 0.0;
    assert lots[1..][0] == lots[1];
  }

  lemma SellOne(b: Book, date: int)
    requires Shows(b, "A", 70.0, [Lot(0, 10.0, date, 1), Lot(1, 20.0, date, 1)], Position(2, 15.0, 0.0))
    ensures !AverageMatches(Step(b, OpSell("A", 1, 30.0, 0.0, 0.0, date)), "A")
  {
    hide Sell;
    assert LotsOf(b, "A")[1] in LotsOf(b, "A") && LotsOf(b, "A")[0] in LotsOf(b, "A");
    var lots := LotsOf(b, "A");
    BasisOfTwo(lots);
    SellKeepsAverageIff(b, "A", 30.0, 0.0, 0.0, date);
    SellSucceedsIff(b, "A", 1, 30.0, 0.0, 0.0, date);
  }

  /** A run that drifts: one share bought at 10, one at 20, and the first sold. */
  lemma AverageDrifts(date: int)
    ensures var ops := [OpBuy("A", 1, 10.0, 0.0, date), OpBuy("A", 1, 20.0, 0.0, date), OpSell("A", 1, 30.0, 0.0, 0.0, date)];
            !AverageMatches(Run(100.0, Fifo, 30, ops).book, "A")
  {
    hide Step, AverageMatches;
    var buy1, buy2, sell := OpBuy("A", 1, 10.0, 0.0, date), OpBuy("A", 1, 20.0, 0.0, date), OpSell("A", 1, 30.0, 0.0, 0.0, date);
    assert [buy1, buy2, sell][..2] == [buy1, buy2] && [buy1, buy2][..1] == [buy1] && [buy1][..0] == [];
    FirstBuy(Run(100.0, Fifo, 30, []).book, date);
    SecondBuy(Run(100.0, Fifo, 30, [buy1]).book, date);
    SellOne(Run(100.0, Fifo, 30, [buy1, buy2]).book, date);
  }
}
