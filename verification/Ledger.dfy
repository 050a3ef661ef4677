/**
 The trading ledger as a value (engine/core/portfolio.py): what a buy and a
 sell do to cash, positions, tax lots, histories and realised profit, and the
 laws that hold after any sequence of them. Money is exact; instants are
 microseconds; the id of a new lot is the next number.
 */
module Ledger {
  import opened Wrappers
  import opened Sums
  import opened TaxLots

  datatype Side = BuySide | SellSide

  datatype Position = Position(quantity: int, avgCost: real, currentPrice: real)

  datatype TradeRecord = TradeRecord(
    side: Side, symbol: string, date: int, quantity: int, price: real, cost: real, tax: real, lotIds: seq<nat>)

  datatype SellRecord = SellRecord(symbol: string, date: int, quantity: int, price: real, basis: real, gain: real)

  datatype Book = Book(
    initialCash: real,
    cash: real,
    positions: map<string, Position>,
    lots: map<string, seq<Lot>>,
    trades: seq<TradeRecord>,
    sells: seq<SellRecord>,
    realized: real,
    tm: TaxMethod,
    washDays: int,
    nextId: nat)

  datatype Error = InsufficientCash | NoPosition | NotEnoughHeld | NoLots | LotsInsufficient

  function Opening(initialCash: real, tm: TaxMethod, washDays: int): Book {
    Book(initialCash, initialCash, map[], map[], [], [], 0.0, tm, washDays, 0)
  }

  function LotsOf(b: Book, symbol: string): seq<Lot> {
    if symbol in b.lots then b.lots[symbol] else []
  }

  // ----- buying

  function Abs(x: real): real { if x < 0.0 then -x else x }

  /** Whether a recorded sell is a loss of `symbol` at most `days` before `date`. */
  predicate IsWashed(s: SellRecord, symbol: string, date: int, days: int) {
    s.symbol == symbol && s.gain < 0.0 && date - days * MICROSECONDS_PER_DAY <= s.date <= date
  }

  /** The part of one loss that a purchase of `quantity` shares takes over. */
  function Disallowed(s: SellRecord, quantity: int): real
    requires s.quantity > 0
  {
    Min(quantity, s.quantity) as real * (Abs(s.gain) / s.quantity as real)
  }

  ghost predicate SellsPositive(sells: seq<SellRecord>) {
    forall i :: 0 <= i < |sells| ==> sells[i].quantity > 0
  }

  function WashTotal(sells: seq<SellRecord>, symbol: string, quantity: int, date: int, days: int): real
    requires SellsPositive(sells)
  {
    if sells == [] then 0.0
    else
      (if IsWashed(sells[0], symbol, date, days) then Disallowed(sells[0], quantity) else 0.0)
      + WashTotal(sells[1..], symbol, quantity, date, days)
  }

  /** The wash-sale amount that a buy adds to the basis of its lot. */
  function WashOfBuy(b: Book, symbol: string, quantity: int, date: int): real
    requires SellsPositive(b.sells)
  {
    Max0(WashTotal(b.sells, symbol, quantity, date, b.washDays))
  }

  function AdjustedPrice(price: real, wash: real, quantity: int): real
    requires quantity > 0
  {
    if wash > 0.0 then price + wash / quantity as real else price
  }

  function AverageCost(p: Position, quantity: int, price: real): real
    requires p.quantity + quantity > 0
  {
    (p.quantity as real * p.avgCost + quantity as real * price) / (p.quantity + quantity) as real
  }

  function PositionAfterBuy(b: Book, symbol: string, quantity: int, adjusted: real): Position
    requires quantity > 0 && (symbol in b.positions ==> b.positions[symbol].quantity > 0)
  {
    if symbol in b.positions then
      var p := b.positions[symbol];
      p.(quantity := p.quantity + quantity, avgCost := AverageCost(p, quantity, adjusted))
    else Position(quantity, adjusted, 0.0)
  }

  /** What a buy books, given the wash-adjusted lot price and the new position. */
  function BookBuy(b: Book, symbol: string, quantity: int, price: real, cost: real, date: int, adjusted: real, p: Position): Book {
    b.(cash := b.cash - (Cost(quantity, price) + cost),
       lots := b.lots[symbol := LotsOf(b, symbol) + [Lot(b.nextId, adjusted, date, quantity)]],
       positions := b.positions[symbol := p],
       trades := b.trades + [TradeRecord(BuySide, symbol, date, quantity, price, cost, 0.0, [b.nextId])],
       nextId := b.nextId + 1)
  }

  function Buy(b: Book, symbol: string, quantity: int, price: real, cost: real, date: int): (r: Result<Book, Error>)
    requires SellsPositive(b.sells) && quantity > 0
    requires symbol in b.positions ==> b.positions[symbol].quantity > 0
  {
    if b.cash < Cost(quantity, price) + cost then Err(InsufficientCash)
    else
      var adjusted := AdjustedPrice(price, WashOfBuy(b, symbol, quantity, date), quantity);
      Ok(BookBuy(b, symbol, quantity, price, cost, date, adjusted, PositionAfterBuy(b, symbol, quantity, adjusted)))
  }

  // ----- selling

  function TakenIds(ts: seq<Taken>): seq<nat> {
    if ts == [] then [] else [ts[0].lotId] + TakenIds(ts[1..])
  }

  /** What a sell books once its lots are consumed. */
  function BookSale(b: Book, symbol: string, quantity: int, price: real, cost: real, tax: real, date: int, taken: seq<Taken>): Book
    requires symbol in b.positions
  {
    var p := b.positions[symbol];
    var left := p.quantity - quantity;
    var proceeds := Cost(quantity, price);
    var basis := TakenBasis(taken);
    var gain := proceeds - basis - cost - tax;
    b.(cash := b.cash + (proceeds - cost - tax),
       positions := if left <= 0 then b.positions - {symbol} else b.positions[symbol := p.(quantity := left)],
       realized := b.realized + gain,
       sells := b.sells + [SellRecord(symbol, date, quantity, price, basis, gain)],
       trades := b.trades + [TradeRecord(SellSide, symbol, date, quantity, price, cost, tax, TakenIds(taken))])
  }

  /** close_position, for any integer quantity. */
  function Sell(b: Book, symbol: string, quantity: int, price: real, cost: real, tax: real, date: int)
    : (r: Result<(Book, seq<Taken>), Error>)
  {
    if symbol !in b.positions then Err(NoPosition)
    else if quantity > b.positions[symbol].quantity then Err(NotEnoughHeld)
    else if LotsOf(b, symbol) == [] then Err(NoLots)
    else
      var c := ConsumeLots(LotsOf(b, symbol), b.tm, quantity, date);
      if c.unfilled > 0 then Err(LotsInsufficient)
      else Ok((BookSale(b.(lots := b.lots[symbol := c.lots]), symbol, quantity, price, cost, tax, date, c.taken), c.taken))
  }

  // ----- the invariant of the book

  ghost predicate IdsBelow(lots: seq<Lot>, n: nat) {
    forall i :: 0 <= i < |lots| ==> lots[i].id < n
  }

  ghost predicate SymbolConsistent(b: Book, symbol: string) {
    var lots := LotsOf(b, symbol);
    && DistinctIds(lots) && AllPositive(lots) && IdsBelow(lots, b.nextId)
    && (symbol in b.positions <==> lots != [])
    && (symbol in b.positions ==> b.positions[symbol].quantity == Qty(lots))
  }

  /** Every position holds exactly the shares of its lots. */
  ghost predicate Consistent(b: Book) {
    SellsPositive(b.sells) && forall symbol :: SymbolConsistent(b, symbol)
  }

  lemma HeldIsPositive(b: Book, symbol: string)
    requires SymbolConsistent(b, symbol) && symbol in b.positions
    ensures b.positions[symbol].quantity > 0
  {
    QtyNonNegative(LotsOf(b, symbol));
  }

  lemma BuyKeepsConsistent(b: Book, symbol: string, quantity: int, price: real, cost: real, date: int)
    requires Consistent(b) && quantity > 0
    requires symbol in b.positions ==> b.positions[symbol].quantity > 0
    requires Buy(b, symbol, quantity, price, cost, date).Ok?
    ensures Consistent(Buy(b, symbol, quantity, price, cost, date).value)
  {
    var b' := Buy(b, symbol, quantity, price, cost, date).value;
    assert SymbolConsistent(b, symbol);
    var lots, lot := LotsOf(b, symbol), LotsOf(b', symbol)[|LotsOf(b, symbol)|];
    QtyConcat(lots, [lot]);
    assert SymbolConsistent(b', symbol);
    forall other | other != symbol
      ensures SymbolConsistent(b', other)
    {
      assert SymbolConsistent(b, other);
    }
  }

  /** The ledger's Buy, on a consistent book. */
  ghost function BuyOf(b: Book, symbol: string, quantity: int, price: real, cost: real, date: int): (r: Result<Book, Error>)
    requires Consistent(b) && quantity > 0
  {
    assert SymbolConsistent(b, symbol);
    assert symbol in b.positions ==> b.positions[symbol].quantity > 0 by {
      if symbol in b.positions { HeldIsPositive(b, symbol); }
    }
    Buy(b, symbol, quantity, price, cost, date)
  }

  lemma BuyOfKeepsConsistent(b: Book, symbol: string, quantity: int, price: real, cost: real, date: int)
    requires Consistent(b) && quantity > 0
    ensures BuyOf(b, symbol, quantity, price, cost, date).Ok? ==> Consistent(BuyOf(b, symbol, quantity, price, cost, date).value)
  {
    assert SymbolConsistent(b, symbol);
    if symbol in b.positions { HeldIsPositive(b, symbol); }
    if BuyOf(b, symbol, quantity, price, cost, date).Ok? {
      BuyKeepsConsistent(b, symbol, quantity, price, cost, date);
    }
  }

  lemma SellKeepsConsistent(b: Book, symbol: string, quantity: int, price: real, cost: real, tax: real, date: int)
    requires Consistent(b) && quantity > 0
    requires Sell(b, symbol, quantity, price, cost, tax, date).Ok?
    ensures Consistent(Sell(b, symbol, quantity, price, cost, tax, date).value.0)
  {
    var b' := Sell(b, symbol, quantity, price, cost, tax, date).value.0;
    var lots := LotsOf(b, symbol);
    assert SymbolConsistent(b, symbol);
    SaleFacts(lots, b.tm, quantity, date);
    ConsumeKeepsIds(lots, Ordered(lots, b.tm), quantity, date, b.nextId);
    QtyNonNegative(LotsOf(b', symbol));
    assert SymbolConsistent(b', symbol);
    forall other | other != symbol
      ensures SymbolConsistent(b', other)
    {
      assert SymbolConsistent(b, other);
    }
  }

  lemma {:induction false} DeductKeepsIds(lots: seq<Lot>, id: nat, amount: int, n: nat)
    requires IdsBelow(lots, n)
    ensures IdsBelow(Deduct(lots, id, amount), n)
  {
    if lots != [] && lots[0].id != id {
      DeductKeepsIds(lots[1..], id, amount, n);
    }
  }

  lemma {:induction false} ConsumeKeepsIds(lots: seq<Lot>, queue: seq<Lot>, quantity: int, date: int, n: nat)
    requires IdsBelow(lots, n)
    ensures IdsBelow(Consume(lots, queue, quantity, date).lots, n)
    decreases queue
  {
    if quantity > 0 && queue != [] {
      var amount := Min(quantity, queue[0].quantity);
      DeductKeepsIds(lots, queue[0].id, amount, n);
      ConsumeKeepsIds(Deduct(lots, queue[0].id, amount), queue[1..], quantity - amount, date, n);
    }
  }

  /** From a consistent book a sell succeeds exactly when the shares are held: the lots never run short. */
  lemma SellSucceedsIff(b: Book, symbol: string, quantity: int, price: real, cost: real, tax: real, date: int)
    requires Consistent(b) && quantity > 0
    ensures var r := Sell(b, symbol, quantity, price, cost, tax, date);
            && (r.Ok? <==> symbol in b.positions && quantity <= b.positions[symbol].quantity)
            && (r.Err? ==> r.error == NoPosition || r.error == NotEnoughHeld)
  {
    assert SymbolConsistent(b, symbol);
    if symbol in b.positions && quantity <= b.positions[symbol].quantity {
      SaleFacts(LotsOf(b, symbol), b.tm, quantity, date);
    }
  }

  /** close_position accepts any integer: the book stays consistent exactly when the quantity is positive. */
  lemma SellKeepsBookIff(b: Book, symbol: string, quantity: int, price: real, cost: real, tax: real, date: int)
    requires Consistent(b) && Sell(b, symbol, quantity, price, cost, tax, date).Ok?
    ensures Consistent(Sell(b, symbol, quantity, price, cost, tax, date).value.0) <==> quantity > 0
  {
    if quantity > 0 {
      SellKeepsConsistent(b, symbol, quantity, price, cost, tax, date);
    } else {
      var sells := Sell(b, symbol, quantity, price, cost, tax, date).value.0.sells;
      assert sells[|sells| - 1].quantity <= 0;
    }
  }

  /** A position still matches its lots exactly when the quantity is not negative. */
  lemma SellMatchesLotsIff(b: Book, symbol: string, quantity: int, price: real, cost: real, tax: real, date: int)
    requires Consistent(b) && Sell(b, symbol, quantity, price, cost, tax, date).Ok?
    ensures SymbolConsistent(Sell(b, symbol, quantity, price, cost, tax, date).value.0, symbol) <==> quantity >= 0
  {
    assert SymbolConsistent(b, symbol);
    HeldIsPositive(b, symbol);
    if quantity > 0 {
      SellKeepsConsistent(b, symbol, quantity, price, cost, tax, date);
    }
  }

  // ----- conservation

  ghost function BasisAt(lots: map<string, seq<Lot>>): string -> real {
    symbol => if symbol in lots then Basis(lots[symbol]) else 0.0
  }

  /** The cost basis of every open lot. */
  ghost function TotalBasis(lots: map<string, seq<Lot>>): real {
    SumOver(lots.Keys, BasisAt(lots))
  }

  lemma TotalBasisUpdate(lots: map<string, seq<Lot>>, symbol: string, ls: seq<Lot>)
    ensures TotalBasis(lots[symbol := ls]) == TotalBasis(lots) - BasisAt(lots)(symbol) + Basis(ls)
  {
    var after := lots[symbol := ls];
    var rest := lots.Keys - {symbol};
    SumOverPick(after.Keys, BasisAt(after), symbol);
    assert after.Keys - {symbol} == rest;
    SumOverSame(rest, BasisAt(after), BasisAt(lots));
    if symbol in lots {
      SumOverPick(lots.Keys, BasisAt(lots), symbol);
    } else {
      assert rest == lots.Keys;
    }
  }

  /** The fees of all recorded buys. */
  function BuyCosts(trades: seq<TradeRecord>): real {
    if trades == [] then 0.0
    else
      var t := trades[|trades| - 1];
      BuyCosts(trades[..|trades| - 1]) + (if t.side.BuySide? then t.cost else 0.0)
  }

  /** What conservation balances, apart from wash-sale adjustments. */
  ghost function Imbalance(b: Book): real {
    b.cash + TotalBasis(b.lots) - b.initialCash - b.realized + BuyCosts(b.trades)
  }

  lemma AdjustedCost(price: real, wash: real, quantity: int)
    requires quantity > 0 && wash >= 0.0
    ensures Cost(quantity, AdjustedPrice(price, wash, quantity)) == Cost(quantity, price) + wash
  {
    if wash > 0.0 {
      var q := quantity as real;
      assert q * (wash / q) == wash;
      assert q * (price + wash / q) == q * price + q * (wash / q);
    }
  }

  /** A buy unbalances the book by its wash-sale adjustment only. */
  lemma BuyConserves(b: Book, symbol: string, quantity: int, price: real, cost: real, date: int)
    requires SellsPositive(b.sells) && quantity > 0
    requires symbol in b.positions ==> b.positions[symbol].quantity > 0
    requires Buy(b, symbol, quantity, price, cost, date).Ok?
    ensures Imbalance(Buy(b, symbol, quantity, price, cost, date).value) == Imbalance(b) + WashOfBuy(b, symbol, quantity, date)
  {
    var b' := Buy(b, symbol, quantity, price, cost, date).value;
    var wash := WashOfBuy(b, symbol, quantity, date);
    var lot := Lot(b.nextId, AdjustedPrice(price, wash, quantity), date, quantity);
    TotalBasisUpdate(b.lots, symbol, LotsOf(b, symbol) + [lot]);
    QtyConcat(LotsOf(b, symbol), [lot]);
    AdjustedCost(price, wash, quantity);
    assert b'.trades[..|b'.trades| - 1] == b.trades;
  }

  /** A sell keeps the balance. */
  lemma SellConserves(b: Book, symbol: string, quantity: int, price: real, cost: real, tax: real, date: int)
    requires Consistent(b) && quantity >= 0
    requires Sell(b, symbol, quantity, price, cost, tax, date).Ok?
    ensures Imbalance(Sell(b, symbol, quantity, price, cost, tax, date).value.0) == Imbalance(b)
  {
    var b' := Sell(b, symbol, quantity, price, cost, tax, date).value.0;
    assert SymbolConsistent(b, symbol);
    SaleFacts(LotsOf(b, symbol), b.tm, quantity, date);
    TotalBasisUpdate(b.lots, symbol, LotsOf(b', symbol));
    assert b'.trades[..|b'.trades| - 1] == b.trades;
  }

  // ----- the trade history replays to the book

  function CashFlow(t: TradeRecord): real {
    match t.side
    case BuySide => -(Cost(t.quantity, t.price) + t.cost)
    case SellSide => Cost(t.quantity, t.price) - t.cost - t.tax
  }

  function ReplayCash(initial: real, trades: seq<TradeRecord>): real {
    if trades == [] then initial
    else ReplayCash(initial, trades[..|trades| - 1]) + CashFlow(trades[|trades| - 1])
  }

  /** The shares of `symbol` that a trade adds. */
  function ShareFlow(t: TradeRecord, symbol: string): int {
    if t.symbol != symbol then 0 else if t.side.BuySide? then t.quantity else -t.quantity
  }

  function ReplayHeld(trades: seq<TradeRecord>, symbol: string): int {
    if trades == [] then 0
    else ReplayHeld(trades[..|trades| - 1], symbol) + ShareFlow(trades[|trades| - 1], symbol)
  }

  function Held(b: Book, symbol: string): int {
    if symbol in b.positions then b.positions[symbol].quantity else 0
  }

  // ----- whole runs

  datatype Op =
    | OpBuy(symbol: string, quantity: int, price: real, cost: real, date: int)
    | OpSell(symbol: string, quantity: int, price: real, cost: real, tax: real, date: int)
    | OpMethod(tm: TaxMethod)
    | OpPrices(prices: map<string, real>)

  ghost predicate PositiveQuantity(op: Op) {
    (op.OpBuy? || op.OpSell?) ==> op.quantity > 0
  }

  function UpdatePrices(b: Book, prices: map<string, real>): Book {
    b.(positions := map symbol | symbol in b.positions ::
         if symbol in prices then b.positions[symbol].(currentPrice := prices[symbol]) else b.positions[symbol])
  }

  /** One call; a call that raises leaves the book as it was. */
  ghost function Step(b: Book, op: Op): Book
    requires Consistent(b) && PositiveQuantity(op)
  {
    match op
    case OpBuy(symbol, quantity, price, cost, date) =>
      assert SymbolConsistent(b, symbol);
      assert symbol in b.positions ==> b.positions[symbol].quantity > 0 by {
        if symbol in b.positions { HeldIsPositive(b, symbol); }
      }
      var r := Buy(b, symbol, quantity, price, cost, date);
      if r.Ok? then r.value else b
    case OpSell(symbol, quantity, price, cost, tax, date) =>
      var r := Sell(b, symbol, quantity, price, cost, tax, date);
      if r.Ok? then r.value.0 else b
    case OpMethod(tm) => b.(tm := tm)
    case OpPrices(prices) => UpdatePrices(b, prices)
  }

  /** The wash-sale amount that a call adds. */
  ghost function WashAdded(b: Book, op: Op): real
    requires Consistent(b) && PositiveQuantity(op)
  {
    if op.OpBuy? && Step(b, op) != b then WashOfBuy(b, op.symbol, op.quantity, op.date) else 0.0
  }

  lemma StepConsistent(b: Book, op: Op)
    requires Consistent(b) && PositiveQuantity(op)
    ensures Consistent(Step(b, op))
  {
    match op
    case OpBuy(symbol, quantity, price, cost, date) =>
      if Step(b, op) != b {
        assert SymbolConsistent(b, symbol);
        if symbol in b.positions { HeldIsPositive(b, symbol); }
        BuyKeepsConsistent(b, symbol, quantity, price, cost, date);
      }
    case OpSell(symbol, quantity, price, cost, tax, date) =>
      if Sell(b, symbol, quantity, price, cost, tax, date).Ok? {
        SellKeepsConsistent(b, symbol, quantity, price, cost, tax, date);
      }
    case _ =>
      forall symbol
        ensures SymbolConsistent(Step(b, op), symbol)
      {
        assert SymbolConsistent(b, symbol);
      }
  }

  lemma StepConserves(b: Book, op: Op)
    requires Consistent(b) && PositiveQuantity(op)
    ensures Imbalance(Step(b, op)) == Imbalance(b) + WashAdded(b, op)
  {
    match op
    case OpBuy(symbol, quantity, price, cost, date) =>
      assert SymbolConsistent(b, symbol);
      if symbol in b.positions { HeldIsPositive(b, symbol); }
      var r := Buy(b, symbol, quantity, price, cost, date);
      if r.Ok? {
        assert r.value.nextId != b.nextId;
        BuyConserves(b, symbol, quantity, price, cost, date);
      }
    case OpSell(symbol, quantity, price, cost, tax, date) =>
      if Sell(b, symbol, quantity, price, cost, tax, date).Ok? {
        SellConserves(b, symbol, quantity, price, cost, tax, date);
      }
    case _ =>
  }

  /** A book with the wash-sale adjustments made so far. */
  datatype Audited = Audited(book: Book, wash: real)

  ghost function Run(initialCash: real, tm: TaxMethod, washDays: int, ops: seq<Op>): (a: Audited)
    requires forall i :: 0 <= i < |ops| ==> PositiveQuantity(ops[i])
    ensures Consistent(a.book)
  {
    if ops == [] then Audited(Opening(initialCash, tm, washDays), 0.0)
    else
      var before := Run(initialCash, tm, washDays, ops[..|ops| - 1]);
      var op := ops[|ops| - 1];
      StepConsistent(before.book, op);
      Audited(Step(before.book, op), before.wash + WashAdded(before.book, op))
  }

  /** cash + open basis = initial cash + realised profit - buy fees + wash-sale adjustments, after any run. */
  lemma {:induction false} Conservation(initialCash: real, tm: TaxMethod, washDays: int, ops: seq<Op>)
    requires forall i :: 0 <= i < |ops| ==> PositiveQuantity(ops[i])
    ensures var a := Run(initialCash, tm, washDays, ops);
            && a.book.initialCash == initialCash
            && a.book.cash + TotalBasis(a.book.lots)
               == initialCash + a.book.realized - BuyCosts(a.book.trades) + a.wash
  {
    if ops != [] {
      Conservation(initialCash, tm, washDays, ops[..|ops| - 1]);
      StepConserves(Run(initialCash, tm, washDays, ops[..|ops| - 1]).book, ops[|ops| - 1]);
    }
  }

  ghost predicate ReplaysTo(initial: real, trades: seq<TradeRecord>, symbol: string, cash: real, held: int) {
    cash == ReplayCash(initial, trades) && held == ReplayHeld(trades, symbol)
  }

  ghost predicate Replays(b: Book, symbol: string) {
    ReplaysTo(b.initialCash, b.trades, symbol, b.cash, Held(b, symbol))
  }

  lemma ReplayAppend(initial: real, trades: seq<TradeRecord>, symbol: string, cash: real, held: int, t: TradeRecord)
    requires ReplaysTo(initial, trades, symbol, cash, held)
    ensures ReplaysTo(initial, trades + [t], symbol, cash + CashFlow(t), held + ShareFlow(t, symbol))
  {
    assert (trades + [t])[..|trades|] == trades;
  }

  lemma SellReplays(b: Book, symbol: string, quantity: int, price: real, cost: real, tax: real, date: int, other: string)
    requires Sell(b, symbol, quantity, price, cost, tax, date).Ok? && Replays(b, other)
    ensures Replays(Sell(b, symbol, quantity, price, cost, tax, date).value.0, other)
  {
    var b', taken := Sell(b, symbol, quantity, price, cost, tax, date).value.0, Sell(b, symbol, quantity, price, cost, tax, date).value.1;
    var t := TradeRecord(SellSide, symbol, date, quantity, price, cost, tax, TakenIds(taken));
    ReplayAppend(b.initialCash, b.trades, other, b.cash, Held(b, other), t);
    assert b'.cash == b.cash + CashFlow(t);
    assert Held(b', other) == Held(b, other) + ShareFlow(t, other);
  }

  lemma BuyReplays(
      b: Book, symbol: string, quantity: int, price: real, cost: real, date: int, adjusted: real, p: Position, other: string)
    requires p.quantity == Held(b, symbol) + quantity && Replays(b, other)
    ensures Replays(BookBuy(b, symbol, quantity, price, cost, date, adjusted, p), other)
  {
    var b' := BookBuy(b, symbol, quantity, price, cost, date, adjusted, p);
    var t := TradeRecord(BuySide, symbol, date, quantity, price, cost, 0.0, [b.nextId]);
    ReplayAppend(b.initialCash, b.trades, other, b.cash, Held(b, other), t);
    assert b'.cash == b.cash + CashFlow(t);
    assert Held(b', other) == Held(b, other) + ShareFlow(t, other);
  }

  lemma StepReplays(b: Book, op: Op, symbol: string)
    requires Consistent(b) && PositiveQuantity(op) && Replays(b, symbol)
    ensures Replays(Step(b, op), symbol)
  {
    match op
    case OpBuy(s, quantity, price, cost, date) =>
      assert SymbolConsistent(b, s);
      if s in b.positions { HeldIsPositive(b, s); }
      var adjusted := AdjustedPrice(price, WashOfBuy(b, s, quantity, date), quantity);
      BuyReplays(b, s, quantity, price, cost, date, adjusted, PositionAfterBuy(b, s, quantity, adjusted), symbol);
    case OpSell(s, quantity, price, cost, tax, date) =>
      if Sell(b, s, quantity, price, cost, tax, date).Ok? {
        SellReplays(b, s, quantity, price, cost, tax, date, symbol);
      }
    case _ =>
  }

  /** After any run the trade history alone gives back the cash and every position. */
  lemma {:induction false} HistoryReplays(initialCash: real, tm: TaxMethod, washDays: int, ops: seq<Op>, symbol: string)
    requires forall i :: 0 <= i < |ops| ==> PositiveQuantity(ops[i])
    ensures var b := Run(initialCash, tm, washDays, ops).book;
            Replays(b, symbol) && Held(b, symbol) == Qty(LotsOf(b, symbol))
  {
    if ops != [] {
      HistoryReplays(initialCash, tm, washDays, ops[..|ops| - 1], symbol);
      StepReplays(Run(initialCash, tm, washDays, ops[..|ops| - 1]).book, ops[|ops| - 1], symbol);
    }
    assert SymbolConsistent(Run(initialCash, tm, washDays, ops).book, symbol);
  }
}
