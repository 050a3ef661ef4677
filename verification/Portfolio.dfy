/**
 The portfolio object itself (engine/core/portfolio.py): tax lots are heap
 objects that the consuming loop decrements in place while it walks a sorted
 copy of the list that shares them. Every method is tied to the ledger.
 */
module PortfolioObject {
  import opened Wrappers
  import opened Sorting
  import opened TaxLots
  import opened Ledger

  class TaxLot {
    const id: nat
    const symbol: string
    const price: real
    const date: int
    var quantity: int

    constructor (id: nat, symbol: string, price: real, date: int, quantity: int)
      ensures this.id == id && this.symbol == symbol && this.price == price && this.date == date
      ensures this.quantity == quantity
    {
      this.id, this.symbol, this.price, this.date, this.quantity := id, symbol, price, date, quantity;
    }

    function Value(): Lot
      reads this
    {
      Lot(id, price, date, quantity)
    }
  }

  function Values(lots: seq<TaxLot>): seq<Lot>
    reads lots
  {
    seq(|lots|, i requires 0 <= i < |lots| reads lots => lots[i].Value())
  }

  /** The sorted copy of the list: the same objects in consuming order. */
  function OrderedLots(lots: seq<TaxLot>, tm: TaxMethod): seq<TaxLot> {
    if tm.SpecificLot? then lots else Sort(lots, (a: TaxLot, b: TaxLot) => MayPrecede(tm, a.date, b.date))
  }

  lemma {:induction false} InsertValues(x: TaxLot, lots: seq<TaxLot>, tm: TaxMethod)
    ensures Values(Insert(x, lots, (a: TaxLot, b: TaxLot) => MayPrecede(tm, a.date, b.date)))
            == Insert(x.Value(), Values(lots), (a: Lot, b: Lot) => MayPrecede(tm, a.date, b.date))
  {
    if lots != [] {
      InsertValues(x, lots[1..], tm);
      assert Values(lots)[1..] == Values(lots[1..]);
    }
  }

  lemma {:induction false} SortValues(lots: seq<TaxLot>, tm: TaxMethod)
    ensures Values(Sort(lots, (a: TaxLot, b: TaxLot) => MayPrecede(tm, a.date, b.date)))
            == Sort(Values(lots), (a: Lot, b: Lot) => MayPrecede(tm, a.date, b.date))
  {
    if lots != [] {
      SortValues(lots[1..], tm);
      assert Values(lots)[1..] == Values(lots[1..]);
      InsertValues(lots[0], Sort(lots[1..], (a: TaxLot, b: TaxLot) => MayPrecede(tm, a.date, b.date)), tm);
    }
  }

  /** Sorting the objects and sorting their values is the same. */
  lemma OrderedValues(lots: seq<TaxLot>, tm: TaxMethod)
    ensures Values(OrderedLots(lots, tm)) == Ordered(Values(lots), tm)
    ensures multiset(OrderedLots(lots, tm)) == multiset(lots)
  {
    if !tm.SpecificLot? {
      SortValues(lots, tm);
      SortPermutes(lots, (a: TaxLot, b: TaxLot) => MayPrecede(tm, a.date, b.date));
    }
  }

  function IndexOf(lots: seq<TaxLot>, lot: TaxLot): (k: nat)
    requires lot in lots
    ensures k < |lots| && lots[k] == lot
  {
    if lots[0] == lot then 0 else IndexOf(lots[1..], lot) + 1
  }

  ghost predicate DistinctLots(lots: seq<TaxLot>) {
    forall i, j :: 0 <= i < j < |lots| ==> lots[i] != lots[j]
  }

  /** `lot.quantity -= amount`, and `lots.remove(lot)` once it is used up. */
  method DeductFrom(lots: seq<TaxLot>, lot: TaxLot, amount: int) returns (left: seq<TaxLot>)
    requires lot in lots && DistinctLots(lots) && DistinctIds(Values(lots))
    modifies lot
    ensures Values(left) == Deduct(old(Values(lots)), lot.id, amount)
    ensures DistinctLots(left) && forall l :: l in left ==> l in lots
    ensures forall l :: l in lots && l != lot ==> l in left
  {
    hide Deduct, DistinctIds;
    var k := IndexOf(lots, lot);
    ghost var before := Values(lots);
    DeductAt(before, k, amount);
    lot.quantity := lot.quantity - amount;
    if lot.quantity <= 0 {
      left := lots[..k] + lots[k + 1..];
      assert lots == lots[..k] + [lot] + lots[k + 1..];
      assert Values(left) == before[..k] + before[k + 1..];
    } else {
      left := lots;
      assert Values(left) == before[k := lot.Value()];
    }
  }

  lemma NothingTaken()
    ensures TakenBasis([]) == 0.0
  {}

  /** The consuming loop over a sorted copy that shares the lot objects. */
  method ConsumeSorted(lots: seq<TaxLot>, sorted: seq<TaxLot>, quantity: int, sellDate: int)
    returns (left: seq<TaxLot>, consumed: seq<Taken>, totalBasis: real, remaining: int)
    requires DistinctLots(lots) && DistinctIds(Values(lots))
    requires DistinctLots(sorted) && forall j :: 0 <= j < |sorted| ==> sorted[j] in lots
    modifies sorted
    ensures DistinctLots(left) && forall l :: l in left ==> l in lots
    ensures Consumption(Values(left), consumed, remaining) == old(Consume(Values(lots), Values(sorted), quantity, sellDate))
    ensures totalBasis == TakenBasis(consumed)
  {
    hide Deduct, TakenBasis, IsLongTerm, Cost;
    NothingTaken();
    left, remaining, consumed, totalBasis := lots, quantity, [], 0.0;
    var i := 0;
    ghost var queue := Values(sorted);
    ghost var whole := Consume(Values(lots), queue, quantity, sellDate);
    assert queue[0..] == queue;
    while remaining > 0 && i < |sorted|
      invariant 0 <= i <= |sorted| == |queue|
      invariant DistinctLots(left) && forall l :: l in left ==> l in lots
      invariant DistinctIds(Values(left))
      invariant forall j :: i <= j < |sorted| ==> sorted[j] in left && sorted[j].Value() == queue[j]
      invariant whole == After(consumed, Consume(Values(left), queue[i..], remaining, sellDate))
      invariant totalBasis == TakenBasis(consumed)
      decreases |sorted| - i
    {
      var lot := sorted[i];
      var amount := Min(remaining, lot.quantity);
      TakenAppend(consumed, TakeFrom(lot.Value(), amount, sellDate));
      ConsumeNext(Values(left), queue, i, remaining, sellDate, consumed);
      DistinctAfterDeduct(Values(left), lot.id, amount);
      totalBasis := totalBasis + Cost(amount, lot.price);
      consumed := consumed + [Taken(lot.id, amount, lot.price, lot.date, IsLongTerm(lot.date, sellDate))];
      remaining := remaining - amount;
      left := DeductFrom(left, lot, amount);
      i := i + 1;
    }
    assert whole == Consumption(Values(left), consumed + [], remaining);
  }

  class Portfolio {
    const initialCash: real
    const washDays: int
    var cash: real
    var positions: map<string, Position>
    var taxLots: map<string, seq<TaxLot>>
    var trades: seq<TradeRecord>
    var sells: seq<SellRecord>
    var realized: real
    var tm: TaxMethod
    var nextId: nat
    ghost var Repr: set<TaxLot>

    /** The lists hold owned objects of their own symbol, each at most once. */
    ghost predicate OwnsLots()
      reads this
    {
      && (forall s :: s in taxLots ==> forall l :: l in taxLots[s] ==> l in Repr && l.symbol == s)
      && (forall s :: s in taxLots ==> DistinctLots(taxLots[s]))
    }

    ghost function LotValues(): map<string, seq<Lot>>
      requires OwnsLots()
      reads this, Repr
    {
      map s | s in taxLots :: Values(taxLots[s])
    }

    ghost function State(): Book
      requires OwnsLots()
      reads this, Repr
    {
      Book(initialCash, cash, positions, LotValues(), trades, sells, realized, tm, washDays, nextId)
    }

    ghost predicate Valid()
      reads this, Repr
    {
      OwnsLots() && Consistent(State())
    }

    constructor (initialCash: real, tm: TaxMethod, washDays: int)
      ensures Valid() && fresh(Repr)
      ensures State() == Opening(initialCash, tm, washDays)
    {
      this.initialCash, this.tm, this.washDays := initialCash, tm, washDays;
      cash := initialCash;
      positions, taxLots, trades, sells, realized, nextId := map[], map[], [], [], 0.0, 0;
      Repr := {};
    }

    ghost function ValuesOf(symbol: string): seq<Lot>
      reads this, if symbol in taxLots then taxLots[symbol] else []
    {
      if symbol in taxLots then Values(taxLots[symbol]) else []
    }

    /** The records and the new list of the symbol are those of the ledger's ConsumeLots. */
    method ConsumeLotsOf(symbol: string, quantity: int, sellDate: int) returns (r: Result<(seq<Taken>, real), Ledger.Error>)
      requires OwnsLots() && DistinctIds(ValuesOf(symbol))
      modifies this`taxLots, if symbol in taxLots then taxLots[symbol] else []
      ensures OwnsLots()
      ensures old(ValuesOf(symbol)) == [] ==> r == Err(NoLots) && unchanged(this)
      ensures old(ValuesOf(symbol)) != [] ==>
                var c := old(ConsumeLots(ValuesOf(symbol), tm, quantity, sellDate));
                && r == (if c.unfilled > 0 then Err(LotsInsufficient) else Ok((c.taken, TakenBasis(c.taken))))
                && symbol in taxLots && taxLots == old(taxLots)[symbol := taxLots[symbol]]
                && ValuesOf(symbol) == c.lots
    {
      hide Consume, TakenBasis, OrderedLots, Ordered;
      var lots := if symbol in taxLots then taxLots[symbol] else [];
      if lots == [] {
        return Err(NoLots);
      }
      var sorted := OrderedLots(lots, tm);
      OrderedValues(lots, tm);
      SortedIsDistinct(lots, sorted);
      var left, consumed, totalBasis, remaining := ConsumeSorted(lots, sorted, quantity, sellDate);
      taxLots := taxLots[symbol := left];
      if remaining > 0 {
        return Err(LotsInsufficient);
      }
      return Ok((consumed, totalBasis));
    }

    /** A write to the lots of one symbol shows in no other list. */
    twostate lemma LotValuesAfter(symbol: string)
      requires old(OwnsLots()) && OwnsLots() && symbol in taxLots
      requires taxLots == old(taxLots)[symbol := taxLots[symbol]]
      requires forall l :: l in Repr && old(allocated(l)) && l.symbol != symbol ==> l.quantity == old(l.quantity)
      ensures LotValues() == old(LotValues())[symbol := Values(taxLots[symbol])]
    {
      forall s | s in taxLots && s != symbol
        ensures Values(taxLots[s]) == old(Values(taxLots[s]))
      {
        var lots := taxLots[s];
        assert lots == old(taxLots[s]);
        forall i | 0 <= i < |lots|
          ensures lots[i].Value() == old(lots[i].Value())
        {
          assert lots[i] in lots;
        }
      }
    }

    method RecordSale(symbol: string, quantity: int, price: real, cost: real, tax: real, date: int, consumed: seq<Taken>, basis: real)
      requires OwnsLots() && symbol in positions && basis == TakenBasis(consumed)
      modifies this`cash, this`positions, this`realized, this`sells, this`trades
      ensures OwnsLots() && State() == BookSale(old(State()), symbol, quantity, price, cost, tax, date, consumed)
    {
      var position := positions[symbol];
      var left := position.quantity - quantity;
      if left <= 0 {
        positions := positions - {symbol};
      } else {
        positions := positions[symbol := position.(quantity := left)];
      }
      var proceeds := Cost(quantity, price);
      cash := cash + (proceeds - cost - tax);
      var gain := proceeds - basis - cost - tax;
      realized := realized + gain;
      sells := sells + [SellRecord(symbol, date, quantity, price, basis, gain)];
      trades := trades + [TradeRecord(SellSide, symbol, date, quantity, price, cost, tax, TakenIds(consumed))];
    }

    method ClosePosition(symbol: string, quantity: int, price: real, cost: real, tax: real, date: int)
      returns (r: Result<seq<Taken>, Ledger.Error>)
      requires Valid()
      modifies this, Repr
      ensures OwnsLots() && Repr == old(Repr) && (quantity > 0 ==> Valid())
      ensures var s := old(Sell(State(), symbol, quantity, price, cost, tax, date));
              && r == (if s.Ok? then Ok(s.value.1) else Err(s.error))
              && State() == if s.Ok? then s.value.0 else old(State())
    {
      ghost var book := State();
      if symbol !in positions {
        return Err(NoPosition);
      }
      if quantity > positions[symbol].quantity {
        return Err(NotEnoughHeld);
      }
      assert SymbolConsistent(book, symbol);
      assert ValuesOf(symbol) == LotsOf(book, symbol);
      SaleFactsFor(book, symbol, quantity, date);
      if quantity > 0 {
        SellKeepsConsistent(book, symbol, quantity, price, cost, tax, date);
      }
      var consumption := ConsumeLotsOf(symbol, quantity, date);
      LotValuesAfter(symbol);
      assert State() == book.(lots := LotValues());
      RecordSale(symbol, quantity, price, cost, tax, date, consumption.value.0, consumption.value.1);
      return Ok(consumption.value.0);
    }

    method OpenPosition(symbol: string, quantity: int, price: real, cost: real, date: int) returns (r: Result<nat, Ledger.Error>)
      requires Valid() && quantity > 0
      modifies this
      ensures Valid() && fresh(Repr - old(Repr))
      ensures var s := old(BuyOf(State(), symbol, quantity, price, cost, date));
              && r == (if s.Ok? then Ok(old(nextId)) else Err(s.error))
              && State() == if s.Ok? then s.value else old(State())
    {
      ghost var book := State();
      assert SymbolConsistent(book, symbol);
      if cash < Cost(quantity, price) + cost {
        return Err(InsufficientCash);
      }
      BuyOfKeepsConsistent(book, symbol, quantity, price, cost, date);
      var wash := WashAdjustment(symbol, quantity, date);
      var adjusted := price;
      if wash > 0.0 {
        adjusted := price + wash / quantity as real;
      }
      assert adjusted == AdjustedPrice(price, WashOfBuy(book, symbol, quantity, date), quantity);
      var position := Position(quantity, adjusted, 0.0);
      if symbol in positions {
        HeldIsPositive(book, symbol);
        var existing := positions[symbol];
        position := existing.(quantity := existing.quantity + quantity, avgCost := AverageCost(existing, quantity, adjusted));
      }
      RecordBuy(symbol, quantity, price, cost, date, adjusted, position);
      return Ok(nextId - 1);
    }

    method RecordBuy(symbol: string, quantity: int, price: real, cost: real, date: int, adjusted: real, position: Position)
      requires OwnsLots()
      modifies this
      ensures OwnsLots() && fresh(Repr - old(Repr)) && nextId == old(nextId) + 1
      ensures State() == BookBuy(old(State()), symbol, quantity, price, cost, date, adjusted, position)
    {
      hide Cost, DistinctLots, Values;
      ghost var book := State();
      assert ValuesOf(symbol) == LotsOf(book, symbol);
      AddLot(symbol, quantity, adjusted, date);
      assert State() == book.(lots := LotValues(), nextId := nextId);
      cash := cash - (Cost(quantity, price) + cost);
      positions := positions[symbol := position];
      trades := trades + [TradeRecord(BuySide, symbol, date, quantity, price, cost, 0.0, [nextId - 1])];
    }

    /** The wash-sale loop over the sell history. */
    method WashAdjustment(symbol: string, quantity: int, date: int) returns (total: real)
      requires SellsPositive(sells)
      ensures total == WashTotal(sells, symbol, quantity, date, washDays)
    {
      total := 0.0;
      for i := 0 to |sells|
        invariant total + WashTotal(sells[i..], symbol, quantity, date, washDays) == WashTotal(sells, symbol, quantity, date, washDays)
      {
        var s := sells[i];
        assert sells[i..][1..] == sells[i + 1..];
        if s.symbol == symbol && s.gain < 0.0 {
          var windowStart := date - washDays * MICROSECONDS_PER_DAY;
          if windowStart <= s.date <= date {
            total := total + Disallowed(s, quantity);
          }
        }
      }
    }

    /** A new lot object at the end of its symbol's list. */
    method AddLot(symbol: string, quantity: int, price: real, date: int)
      requires OwnsLots()
      modifies this`taxLots, this`nextId, this`Repr
      ensures OwnsLots() && fresh(Repr - old(Repr)) && nextId == old(nextId) + 1
      ensures LotValues() == old(LotValues())[symbol := old(ValuesOf(symbol)) + [Lot(old(nextId), price, date, quantity)]]
    {
      var lot := new TaxLot(nextId, symbol, price, date, quantity);
      nextId := nextId + 1;
      var lots := if symbol in taxLots then taxLots[symbol] else [];
      taxLots := taxLots[symbol := lots + [lot]];
      Repr := Repr + {lot};
      LotValuesAfter(symbol);
      assert Values(lots + [lot]) == Values(lots) + [lot.Value()];
    }
  }

  /** A position of a consistent book never runs out of lots, whatever integer is sold. */
  lemma SaleFactsFor(b: Book, symbol: string, quantity: int, date: int)
    requires Consistent(b) && symbol in b.positions && quantity <= b.positions[symbol].quantity
    ensures LotsOf(b, symbol) != [] && ConsumeLots(LotsOf(b, symbol), b.tm, quantity, date).unfilled <= 0
  {
    assert SymbolConsistent(b, symbol);
    if quantity >= 0 {
      SaleFacts(LotsOf(b, symbol), b.tm, quantity, date);
    }
  }

  /** What the whole loop yields when `consumed` was collected before `c`. */
  ghost function After(consumed: seq<Taken>, c: Consumption): Consumption {
    Consumption(c.lots, consumed + c.taken, c.unfilled)
  }

  /** One turn of the consuming loop, seen from the records collected so far. */
  lemma ConsumeNext(lots: seq<Lot>, queue: seq<Lot>, i: nat, remaining: int, sellDate: int, consumed: seq<Taken>)
    requires i < |queue| && remaining > 0
    ensures var amount := Min(remaining, queue[i].quantity);
            After(consumed, Consume(lots, queue[i..], remaining, sellDate))
            == After(consumed + [TakeFrom(queue[i], amount, sellDate)],
                     Consume(Deduct(lots, queue[i].id, amount), queue[i + 1..], remaining - amount, sellDate))
  {
    assert queue[i..][1..] == queue[i + 1..];
    var amount := Min(remaining, queue[i].quantity);
    var rest := Consume(Deduct(lots, queue[i].id, amount), queue[i + 1..], remaining - amount, sellDate);
    assert consumed + ([TakeFrom(queue[i], amount, sellDate)] + rest.taken) == consumed + [TakeFrom(queue[i], amount, sellDate)] + rest.taken;
  }

  lemma {:induction false} DistinctAfterDeduct(lots: seq<Lot>, id: nat, amount: int)
    requires DistinctIds(lots)
    ensures DistinctIds(Deduct(lots, id, amount))
    ensures forall i :: 0 <= i < |Deduct(lots, id, amount)| ==> exists j :: 0 <= j < |lots| && lots[j].id == Deduct(lots, id, amount)[i].id
  {
    if lots != [] && lots[0].id != id {
      DistinctAfterDeduct(lots[1..], id, amount);
      var rest := Deduct(lots[1..], id, amount);
      forall i | 0 <= i < |rest|
        ensures rest[i].id != lots[0].id && exists j :: 0 <= j < |lots| && lots[j].id == rest[i].id
      {
        var j :| 0 <= j < |lots[1..]| && lots[1..][j].id == rest[i].id;
        assert lots[j + 1].id == rest[i].id;
      }
    }
  }

  lemma SortedIsDistinct(lots: seq<TaxLot>, sorted: seq<TaxLot>)
    requires multiset(lots) == multiset(sorted)
    requires DistinctLots(lots)
    ensures DistinctLots(sorted)
    ensures forall j :: 0 <= j < |sorted| ==> sorted[j] in lots
  {
    forall i, j | 0 <= i < j < |sorted|
      ensures sorted[i] != sorted[j]
    {
      CountAtMostOne(lots, sorted[i]);
      if sorted[i] == sorted[j] {
        CountTwice(sorted, i, j);
      }
    }
    forall j | 0 <= j < |sorted|
      ensures sorted[j] in lots
    {
      assert sorted[j] in multiset(sorted);
    }
  }

  lemma CountTwice<T>(s: seq<T>, i: nat, j: nat)
    requires i < j < |s| && s[i] == s[j]
    ensures multiset(s)[s[i]] >= 2
  {
    assert s == s[..i] + [s[i]] + s[i + 1..j] + [s[j]] + s[j + 1..];
  }

  lemma {:induction false} CountAtMostOne<T>(s: seq<T>, x: T)
    requires forall i, j :: 0 <= i < j < |s| ==> s[i] != s[j]
    ensures multiset(s)[x] <= 1
  {
    if s != [] {
      CountAtMostOne(s[1..], x);
      assert s == [s[0]] + s[1..];
      if s[0] == x {
        assert x !in s[1..];
      }
    }
  }

  lemma {:induction false} TakenAppend(ts: seq<Taken>, t: Taken)
    ensures TakenBasis(ts + [t]) == TakenBasis(ts) + Cost(t.quantity, t.price)
    ensures TakenIds(ts + [t]) == TakenIds(ts) + [t.lotId]
  {
    if ts == [] {
      assert ts + [t] == [t];
    } else {
      TakenAppend(ts[1..], t);
      assert (ts + [t])[1..] == ts[1..] + [t];
    }
  }
}
