/**
 What a buy pays for its lot and what the lot is booked at (engine/core/portfolio.py),
 told from the sell history alone: the dates, the losses and the shares sold.
 */
module WashWindow {
  import opened Wrappers
  import opened TaxLots
  import opened Ledger

  /** A loss of `symbol`, sold at most `days` days before `date` and not after it. */
  ghost predicate LossInWindow(s: SellRecord, symbol: string, date: int, days: int) {
    s.symbol == symbol && s.gain < 0.0 && date - 86_400_000_000 * days <= s.date && s.date <= date
  }

  /** The lot that a buy appends. */
  function NewLot(b: Book, symbol: string): Lot
    requires LotsOf(b, symbol) != []
  {
    LotsOf(b, symbol)[|LotsOf(b, symbol)| - 1]
  }

  lemma UnitOfLoss(s: SellRecord, quantity: int)
    requires s.quantity > 0 && quantity > 0 && s.gain < 0.0
    ensures Disallowed(s, quantity) > 0.0
    ensures Disallowed(s, quantity) * s.quantity as real == Min(quantity, s.quantity) as real * -s.gain
  {
    var n, q, loss := Min(quantity, s.quantity) as real, s.quantity as real, Abs(s.gain);
    var unit := loss / q;
    assert unit > 0.0 && unit * q == loss;
    assert (n * unit) * q == n * (unit * q);
  }

  lemma {:induction false} WashPositiveIff(sells: seq<SellRecord>, symbol: string, quantity: int, date: int, days: int)
    requires SellsPositive(sells) && quantity > 0
    ensures WashTotal(sells, symbol, quantity, date, days) >= 0.0
    ensures WashTotal(sells, symbol, quantity, date, days) > 0.0
            <==> exists i :: 0 <= i < |sells| && LossInWindow(sells[i], symbol, date, days)
  {
    if sells != [] {
      hide Disallowed;
      WashPositiveIff(sells[1..], symbol, quantity, date, days);
      if sells[0].gain < 0.0 {
        UnitOfLoss(sells[0], quantity);
      }
      assert forall i :: 0 < i < |sells| ==> sells[i] == sells[1..][i - 1];
      assert forall i :: 0 <= i < |sells[1..]| ==> sells[1..][i] == sells[i + 1];
    }
  }

  /** A buy books its lot above the price paid exactly if some recorded loss lies in the window, and otherwise at that price. */
  lemma LotPriceRaisedIff(b: Book, symbol: string, quantity: int, price: real, cost: real, date: int)
    requires Consistent(b) && quantity > 0 && BuyOf(b, symbol, quantity, price, cost, date).Ok?
    ensures LotsOf(BuyOf(b, symbol, quantity, price, cost, date).value, symbol) != []
    ensures var lot := NewLot(BuyOf(b, symbol, quantity, price, cost, date).value, symbol);
            && lot.price >= price && lot.date == date && lot.quantity == quantity && lot.id == b.nextId
            && (lot.price > price <==> exists i :: 0 <= i < |b.sells| && LossInWindow(b.sells[i], symbol, date, b.washDays))
  {
    WashPositiveIff(b.sells, symbol, quantity, date, b.washDays);
    var wash := WashOfBuy(b, symbol, quantity, date);
    assert wash > 0.0 ==> wash / quantity as real > 0.0;
  }

  lemma {:induction false} OnlyLossInWindow(sells: seq<SellRecord>, symbol: string, quantity: int, date: int, days: int, i: nat)
    requires SellsPositive(sells) && quantity > 0 && i < |sells| && LossInWindow(sells[i], symbol, date, days)
    requires forall k :: 0 <= k < |sells| && k != i ==> !LossInWindow(sells[k], symbol, date, days)
    ensures WashTotal(sells, symbol, quantity, date, days) == Disallowed(sells[i], quantity)
  {
    hide Disallowed;
    assert forall k :: 0 <= k < |sells[1..]| ==> sells[1..][k] == sells[k + 1];
    if i == 0 {
      WashPositiveIff(sells[1..], symbol, quantity, date, days);
    } else {
      OnlyLossInWindow(sells[1..], symbol, quantity, date, days, i - 1);
    }
  }

  /** A single loss in the window raises the cost of the lot by the share of it that the bought shares replace. */
  lemma OneLossRaisesBy(b: Book, symbol: string, quantity: int, price: real, cost: real, date: int, i: nat)
    requires Consistent(b) && quantity > 0 && BuyOf(b, symbol, quantity, price, cost, date).Ok?
    requires i < |b.sells| && LossInWindow(b.sells[i], symbol, date, b.washDays)
    requires forall k :: 0 <= k < |b.sells| && k != i ==> !LossInWindow(b.sells[k], symbol, date, b.washDays)
    ensures var sold, loss := b.sells[i].quantity, -b.sells[i].gain;
            var lots := LotsOf(BuyOf(b, symbol, quantity, price, cost, date).value, symbol);
            lots != [] &&
            var raise := Cost(quantity, lots[|lots| - 1].price) - Cost(quantity, price);
            && (quantity >= sold ==> raise == loss)
            && (quantity <= sold ==> raise * sold as real == quantity as real * loss)
  {
    hide Disallowed, Cost, AdjustedPrice;
    var d := Disallowed(b.sells[i], quantity);
    OnlyLossInWindow(b.sells, symbol, quantity, date, b.washDays, i);
    UnitOfLoss(b.sells[i], quantity);
    AdjustedCost(price, d, quantity);
    DivideOut(d, b.sells[i].quantity, -b.sells[i].gain);
  }

  lemma DivideOut(a: real, n: int, loss: real)
    requires n > 0
    ensures a * n as real == n as real * loss ==> a == loss
  {
    if a * n as real == n as real * loss {
      assert (a - loss) * n as real == 0.0;
    }
  }
}
