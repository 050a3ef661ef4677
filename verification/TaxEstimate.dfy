/**
 The tax estimate of a sale (engine/core/cost_model.py, estimate_tax) against
 the records that the sale produces.
 */
module TaxEstimate {
  import opened Products
  import opened TaxLots

  datatype TaxRates = TaxRates(shortTerm: real, longTerm: real)

  function LotTax(rates: TaxRates, sellPrice: real, price: real, shares: int, longTerm: bool): real {
    var gain := (sellPrice - price) * shares as real;
    if gain > 0.0 then gain * (if longTerm then rates.longTerm else rates.shortTerm) else 0.0
  }

  /** The loop of estimate_tax over the ordered lots. */
  function TaxOver(rates: TaxRates, sellPrice: real, queue: seq<Lot>, quantity: int, sellDate: int): real
    decreases queue
  {
    if quantity <= 0 || queue == [] then 0.0
    else
      var shares := Min(quantity, queue[0].quantity);
      LotTax(rates, sellPrice, queue[0].price, shares, IsLongTerm(queue[0].date, sellDate))
      + TaxOver(rates, sellPrice, queue[1..], quantity - shares, sellDate)
  }

  function EstimateTax(rates: TaxRates, sellPrice: real, quantity: int, lots: seq<Lot>, tm: TaxMethod, sellDate: int): real {
    Max0(TaxOver(rates, sellPrice, Ordered(lots, tm), quantity, sellDate))
  }

  /** The tax of a list of consumption records. */
  function TaxOfTaken(rates: TaxRates, sellPrice: real, ts: seq<Taken>): real {
    if ts == [] then 0.0
    else LotTax(rates, sellPrice, ts[0].price, ts[0].quantity, ts[0].longTerm) + TaxOfTaken(rates, sellPrice, ts[1..])
  }

  lemma {:induction false} TaxFollowsConsumption(
      rates: TaxRates, sellPrice: real, lots: seq<Lot>, queue: seq<Lot>, quantity: int, sellDate: int)
    ensures TaxOver(rates, sellPrice, queue, quantity, sellDate)
            == TaxOfTaken(rates, sellPrice, Consume(lots, queue, quantity, sellDate).taken)
    decreases queue
  {
    if quantity > 0 && queue != [] {
      var amount := Min(quantity, queue[0].quantity);
      var after := Deduct(lots, queue[0].id, amount);
      TaxFollowsConsumption(rates, sellPrice, after, queue[1..], quantity - amount, sellDate);
      assert Consume(lots, queue, quantity, sellDate).taken[1..] == Consume(after, queue[1..], quantity - amount, sellDate).taken;
    }
  }

  /** For every method, date and rates the estimate is the tax of the lots a sale then consumes. */
  lemma EstimateIsTaxOfSale(
      rates: TaxRates, sellPrice: real, lots: seq<Lot>, tm: TaxMethod, quantity: int, sellDate: int)
    ensures EstimateTax(rates, sellPrice, quantity, lots, tm, sellDate)
            == Max0(TaxOfTaken(rates, sellPrice, ConsumeLots(lots, tm, quantity, sellDate).taken))
    ensures rates.shortTerm >= 0.0 && rates.longTerm >= 0.0 ==>
              EstimateTax(rates, sellPrice, quantity, lots, tm, sellDate)
              == TaxOfTaken(rates, sellPrice, ConsumeLots(lots, tm, quantity, sellDate).taken)
  {
    TaxFollowsConsumption(rates, sellPrice, lots, Ordered(lots, tm), quantity, sellDate);
    if rates.shortTerm >= 0.0 && rates.longTerm >= 0.0 {
      TaxNonNegative(rates, sellPrice, ConsumeLots(lots, tm, quantity, sellDate).taken);
    }
  }

  lemma LotTaxNonNegative(rates: TaxRates, sellPrice: real, price: real, shares: int, longTerm: bool)
    requires rates.shortTerm >= 0.0 && rates.longTerm >= 0.0
    ensures LotTax(rates, sellPrice, price, shares, longTerm) >= 0.0
  {
    var gain := (sellPrice - price) * shares as real;
    if gain > 0.0 {
      ProductNonNegative(gain, if longTerm then rates.longTerm else rates.shortTerm);
    }
  }

  lemma {:induction false} TaxNonNegative(rates: TaxRates, sellPrice: real, ts: seq<Taken>)
    requires rates.shortTerm >= 0.0 && rates.longTerm >= 0.0
    ensures TaxOfTaken(rates, sellPrice, ts) >= 0.0
  {
    if ts != [] {
      hide LotTax;
      TaxNonNegative(rates, sellPrice, ts[1..]);
      LotTaxNonNegative(rates, sellPrice, ts[0].price, ts[0].quantity, ts[0].longTerm);
    }
  }

  lemma ProductNonNegative(a: real, b: real)
    requires a >= 0.0 && b >= 0.0
    ensures a * b >= 0.0
  {}

  // ----- the estimate from the gains and the dates alone

  /** The gain at `sellPrice` of a record, if it was sold 365 days or more after its date (or, for !aged, earlier); a loss counts nothing. */
  function GainOf(t: Taken, sellPrice: real, sellDate: int, aged: bool): real {
    var gain := (sellPrice - t.price) * t.quantity as real;
    if gain > 0.0 && (sellDate - t.date >= 365 * 86_400_000_000) == aged then gain else 0.0
  }

  function GainsOf(ts: seq<Taken>, sellPrice: real, sellDate: int, aged: bool): real {
    if ts == [] then 0.0 else GainOf(ts[0], sellPrice, sellDate, aged) + GainsOf(ts[1..], sellPrice, sellDate, aged)
  }

  /** Each rate on its own gains. */
  function TaxDue(rates: TaxRates, sellPrice: real, ts: seq<Taken>, sellDate: int): real {
    Times(rates.shortTerm, GainsOf(ts, sellPrice, sellDate, false)) + Times(rates.longTerm, GainsOf(ts, sellPrice, sellDate, true))
  }

  /** Every record of a sale is marked by its own age. */
  ghost predicate MarkedByAge(ts: seq<Taken>, sellDate: int) {
    forall k :: 0 <= k < |ts| ==> (ts[k].longTerm <==> sellDate - ts[k].date >= 365 * 86_400_000_000)
  }

  lemma {:induction false} ConsumeMarks(lots: seq<Lot>, queue: seq<Lot>, quantity: int, sellDate: int)
    ensures MarkedByAge(Consume(lots, queue, quantity, sellDate).taken, sellDate)
    decreases queue
  {
    if quantity > 0 && queue != [] {
      var amount := Min(quantity, queue[0].quantity);
      ConsumeMarks(Deduct(lots, queue[0].id, amount), queue[1..], quantity - amount, sellDate);
    }
  }

  lemma {:induction false} TaxOfMarked(rates: TaxRates, sellPrice: real, ts: seq<Taken>, sellDate: int)
    requires MarkedByAge(ts, sellDate)
    ensures TaxOfTaken(rates, sellPrice, ts) == TaxDue(rates, sellPrice, ts, sellDate)
  {
    hide GainOf, LotTax, Times;
    if ts == [] {
      TimesZero(rates.shortTerm);
      TimesZero(rates.longTerm);
    } else {
      TaxOfMarked(rates, sellPrice, ts[1..], sellDate);
      TaxOfOne(rates, sellPrice, ts[0], sellDate);
      TimesSum(rates.shortTerm, GainOf(ts[0], sellPrice, sellDate, false), GainsOf(ts[1..], sellPrice, sellDate, false));
      TimesSum(rates.longTerm, GainOf(ts[0], sellPrice, sellDate, true), GainsOf(ts[1..], sellPrice, sellDate, true));
    }
  }

  lemma TaxOfOne(rates: TaxRates, sellPrice: real, t: Taken, sellDate: int)
    requires t.longTerm <==> sellDate - t.date >= 365 * 86_400_000_000
    ensures LotTax(rates, sellPrice, t.price, t.quantity, t.longTerm)
            == Times(rates.shortTerm, GainOf(t, sellPrice, sellDate, false)) + Times(rates.longTerm, GainOf(t, sellPrice, sellDate, true))
  {
    TimesZero(rates.shortTerm);
    TimesZero(rates.longTerm);
  }

  lemma TimesZero(a: real)
    ensures Times(a, 0.0) == 0.0
  {}

  lemma TimesSum(a: real, b: real, c: real)
    ensures Times(a, b + c) == Times(a, b) + Times(a, c)
  {}

  /** The estimate is the short-term rate on the gains of what a sale takes of young lots plus the long-term rate on the others. */
  lemma TaxIsRatesTimesGains(
      rates: TaxRates, sellPrice: real, lots: seq<Lot>, tm: TaxMethod, quantity: int, sellDate: int)
    ensures var ts := ConsumeLots(lots, tm, quantity, sellDate).taken;
            var due := TaxDue(rates, sellPrice, ts, sellDate);
            EstimateTax(rates, sellPrice, quantity, lots, tm, sellDate) == if due > 0.0 then due else 0.0
  {
    var ts := ConsumeLots(lots, tm, quantity, sellDate).taken;
    EstimateIsTaxOfSale(rates, sellPrice, lots, tm, quantity, sellDate);
    ConsumeMarks(lots, Ordered(lots, tm), quantity, sellDate);
    TaxOfMarked(rates, sellPrice, ts, sellDate);
  }

  /** estimate_tax itself: a loop over the ordered lots that stops once the quantity is covered. */
  method ComputeTax(rates: TaxRates, sellPrice: real, quantity: int, lots: seq<Lot>, tm: TaxMethod, sellDate: int)
    returns (tax: real)
    ensures tax == EstimateTax(rates, sellPrice, quantity, lots, tm, sellDate)
    ensures tax == Max0(TaxOfTaken(rates, sellPrice, ConsumeLots(lots, tm, quantity, sellDate).taken))
    ensures var ts := ConsumeLots(lots, tm, quantity, sellDate).taken;
            var due := TaxDue(rates, sellPrice, ts, sellDate);
            tax == if due > 0.0 then due else 0.0
  {
    EstimateIsTaxOfSale(rates, sellPrice, lots, tm, quantity, sellDate);
    TaxIsRatesTimesGains(rates, sellPrice, lots, tm, quantity, sellDate);
    var sorted := Ordered(lots, tm);
    var remaining, totalTax := quantity, 0.0;
    for i := 0 to |sorted|
      invariant totalTax + TaxOver(rates, sellPrice, sorted[i..], remaining, sellDate)
                == TaxOver(rates, sellPrice, sorted, quantity, sellDate)
    {
      if remaining <= 0 {
        break;
      }
      var lot := sorted[i];
      assert sorted[i..][1..] == sorted[i + 1..];
      var shares := Min(remaining, lot.quantity);
      totalTax := totalTax + LotTax(rates, sellPrice, lot.price, shares, IsLongTerm(lot.date, sellDate));
      remaining := remaining - shares;
    }
    return Max0(totalTax);
  }
}
