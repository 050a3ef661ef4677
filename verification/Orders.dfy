/**
 The order lifecycle (engine/core/order_manager.py): signal, validation,
 costing, risk check, execution and reconciliation against the ledger, and
 the continuation of partially filled orders. The cost model, the risk engine
 and the execution backend are parameters.
 */
module Orders {
  import opened Wrappers
  import opened TaxLots
  import opened Ledger
  import opened Products

  datatype Side = BUY | SELL | HOLD

  datatype Status =
    | Pending | Validated | Costed | RiskApproved | RiskRejected | Submitted
    | Filled | PartiallyFilled | Cancelled | Rejected | Failed

  datatype Transition = Transition(from: Status, to: Status)

  datatype Fill = Fill(price: real, quantity: int)

  datatype Order = Order(
    symbol: string,
    side: Side,
    quantity: int,
    status: Status,
    history: seq<Transition>,
    fillPrice: Option<real>,
    fillQuantity: Option<int>,
    fills: seq<Fill>)

  datatype Signal = Signal(symbol: string, side: Side, weight: real, quantity: Option<int>, maxCostPct: Option<real>)

  /** The two figures of a cost breakdown that reconciliation uses. */
  datatype Costs = Costs(total: real, tax: real)

  datatype FillResult = FillResult(success: bool, price: real, quantity: int)

  datatype OrderError = UnknownOrder | NotPartiallyFilled | NoBackend | Raised(error: Ledger.Error)

  function New(symbol: string, side: Side, quantity: int): Order {
    Order(symbol, side, quantity, Pending, [], None, None, [])
  }

  function MoveTo(o: Order, s: Status): Order {
    o.(status := s, history := o.history + [Transition(o.status, s)])
  }

  function FilledSoFar(o: Order): int {
    if o.fillQuantity.Some? then o.fillQuantity.value else 0
  }

  function Vwap(o: Order): real {
    if o.fillPrice.Some? then o.fillPrice.value else 0.0
  }

  // ----- reconciliation

  function Average(priorPrice: real, priorQty: int, f: Fill): real {
    if priorQty + f.quantity > 0 then
      (Cost(priorQty, priorPrice) + Cost(f.quantity, f.price)) / (priorQty + f.quantity) as real
    else f.price
  }

  /** The order's side of a fill: running quantity, running average, audit entry and status. */
  function Absorb(o: Order, f: Fill): Order {
    var qty := FilledSoFar(o) + f.quantity;
    var o' := o.(fillPrice := Some(Average(Vwap(o), FilledSoFar(o), f)), fillQuantity := Some(qty), fills := o.fills + [f]);
    MoveTo(o', if qty < o.quantity then PartiallyFilled else Filled)
  }

  /** The portfolio's side of a fill. */
  ghost function Settle(b: Book, o: Order, f: Fill, costs: Costs, date: int): Result<Book, Ledger.Error>
    requires Consistent(b) && f.quantity > 0
  {
    match o.side
    case BUY => BuyOf(b, o.symbol, f.quantity, f.price, costs.total, date)
    case SELL =>
      var r := Sell(b, o.symbol, f.quantity, f.price, costs.total - costs.tax, costs.tax, date);
      if r.Ok? then Ok(r.value.0) else Err(r.error)
    case HOLD => Ok(b)
  }

  // ----- sums over fills

  function SumQty(fs: seq<Fill>): int {
    if fs == [] then 0 else SumQty(fs[..|fs| - 1]) + fs[|fs| - 1].quantity
  }

  function SumValue(fs: seq<Fill>): real {
    if fs == [] then 0.0 else SumValue(fs[..|fs| - 1]) + Cost(fs[|fs| - 1].quantity, fs[|fs| - 1].price)
  }

  /** Quantity and average are those of the recorded fills. */
  ghost predicate Accounted(o: Order) {
    && FilledSoFar(o) == SumQty(o.fills)
    && Cost(FilledSoFar(o), Vwap(o)) == SumValue(o.fills)
    && 0 <= FilledSoFar(o)
  }

  lemma AverageTimesQuantity(priorPrice: real, priorQty: int, f: Fill)
    requires 0 <= priorQty && 0 < f.quantity
    ensures Cost(priorQty + f.quantity, Average(priorPrice, priorQty, f)) == Cost(priorQty, priorPrice) + Cost(f.quantity, f.price)
  {
    var n := (priorQty + f.quantity) as real;
    var v := Cost(priorQty, priorPrice) + Cost(f.quantity, f.price);
    assert n * (v / n) == v;
  }

  lemma AbsorbAccounts(o: Order, f: Fill)
    requires Accounted(o) && 0 < f.quantity
    ensures Accounted(Absorb(o, f))
    ensures FilledSoFar(Absorb(o, f)) == FilledSoFar(o) + f.quantity
    ensures Absorb(o, f).status == Filled <==> FilledSoFar(Absorb(o, f)) >= o.quantity
  {
    AverageTimesQuantity(Vwap(o), FilledSoFar(o), f);
    assert (o.fills + [f])[..|o.fills|] == o.fills;
  }

  // ----- the status graph

  predicate Edge(from: Status, to: Status) {
    match from
    case Pending => to.Validated? || to.Rejected?
    case Validated => to.Costed?
    case Costed => to.RiskRejected? || to.RiskApproved?
    case RiskApproved => to.Failed? || to.Submitted?
    case Submitted => to.PartiallyFilled? || to.Filled? || to.Failed?
    case PartiallyFilled => to.PartiallyFilled? || to.Filled? || to.Failed?
    case _ => false
  }

  /** The history is a connected path of allowed edges from Pending to the current status. */
  ghost predicate Path(h: seq<Transition>, status: Status) {
    if h == [] then status.Pending?
    else
      var last := h[|h| - 1];
      last.to == status && Edge(last.from, last.to) && Path(h[..|h| - 1], last.from)
  }

  lemma MoveKeepsPath(o: Order, s: Status)
    requires Path(o.history, o.status) && Edge(o.status, s)
    ensures Path(MoveTo(o, s).history, s)
  {
    assert MoveTo(o, s).history[..|o.history|] == o.history;
  }

  const PIPELINE := [
    Transition(Pending, Validated), Transition(Validated, Costed),
    Transition(Costed, RiskApproved), Transition(RiskApproved, Submitted)]

  /** How many transitions of the pipeline lie behind a status. */
  function Stage(s: Status): nat {
    match s
    case Pending => 0
    case Rejected => 0
    case Validated => 1
    case Costed => 2
    case RiskRejected => 2
    case RiskApproved => 3
    case Failed => 3
    case Cancelled => 0
    case Submitted => 4
    case PartiallyFilled => 4
    case Filled => 4
  }

  /** Every path runs through the pipeline in order as far as its status says. */
  lemma {:induction false} PathFollowsPipeline(h: seq<Transition>, status: Status)
    requires Path(h, status)
    ensures |h| >= Stage(status) && h[..Stage(status)] == PIPELINE[..Stage(status)]
    ensures status.Filled? || status.PartiallyFilled? ==> |h| > 4
  {
    if h != [] {
      var last, before := h[|h| - 1], h[..|h| - 1];
      PathFollowsPipeline(before, last.from);
      var k := Stage(status);
      if Stage(last.from) < k {
        PathLength(before, last.from);
        LastOfPipeline(last, status);
        assert h[..k] == before[..k - 1] + [last];
      } else {
        PrefixOfPrefix(h, PIPELINE, k, Stage(last.from));
      }
    }
  }

  /** An edge that moves one stage on is the next transition of the pipeline. */
  lemma LastOfPipeline(last: Transition, status: Status)
    requires last.to == status && Edge(last.from, last.to) && Stage(last.from) < Stage(status)
    ensures Stage(status) == Stage(last.from) + 1
    ensures PIPELINE[..Stage(status)] == PIPELINE[..Stage(last.from)] + [last]
  {}

  lemma PrefixOfPrefix<T>(a: seq<T>, b: seq<T>, k: nat, n: nat)
    requires k <= n <= |b| && n <= |a| - 1 && a[..|a| - 1][..n] == b[..n]
    ensures a[..k] == b[..k]
  {
    assert a[..k] == a[..|a| - 1][..n][..k];
    assert b[..k] == b[..n][..k];
  }

  /** Up to submission the path has exactly as many steps as the stage. */
  lemma {:induction false} PathLength(h: seq<Transition>, status: Status)
    requires Path(h, status)
    requires status.Pending? || status.Validated? || status.Costed? || status.RiskApproved? || status.Submitted?
    ensures |h| == Stage(status)
  {
    if h != [] {
      PathLength(h[..|h| - 1], h[|h| - 1].from);
    }
  }

  // ----- the invariant of an order

  ghost predicate Sound(o: Order) {
    && Accounted(o)
    && Path(o.history, o.status)
    && (o.status.PartiallyFilled? ==> 0 < FilledSoFar(o) < o.quantity)
    && (o.status.Filled? ==> FilledSoFar(o) >= o.quantity > 0)
    && (o.fills != [] ==> PIPELINE <= o.history)
    && (Stage(o.status) >= 1 ==> o.quantity > 0)
  }

  lemma AbsorbSound(o: Order, f: Fill)
    requires Sound(o) && 0 < f.quantity && (o.status.Submitted? || o.status.PartiallyFilled?)
    ensures Sound(Absorb(o, f))
  {
    AbsorbAccounts(o, f);
    var o' := Absorb(o, f);
    var mid := o'.(status := o.status, history := o.history);
    MoveKeepsPath(mid, o'.status);
    PathFollowsPipeline(o.history, o.status);
    assert PIPELINE[..4] == PIPELINE;
  }

  /** Moving without a fill keeps the order sound, except into a fill status. */
  lemma MoveSound(o: Order, s: Status)
    requires Sound(o) && Edge(o.status, s) && !s.Filled? && !s.PartiallyFilled?
    requires s.Validated? ==> o.quantity > 0
    ensures Sound(MoveTo(o, s))
  {
    MoveKeepsPath(o, s);
  }

  // ----- the portfolio moves by the fill

  /** How a fill of n shares changes the held shares. */
  function Signed(side: Side, n: int): int {
    match side
    case BUY => n
    case SELL => -n
    case HOLD => 0
  }

  lemma SettleMovesPosition(b: Book, o: Order, f: Fill, costs: Costs, date: int)
    requires Consistent(b) && f.quantity > 0 && Settle(b, o, f, costs, date).Ok?
    ensures var b' := Settle(b, o, f, costs, date).value;
            && Consistent(b')
            && Held(b', o.symbol) == Held(b, o.symbol) + Signed(o.side, f.quantity)
            && forall other :: other != o.symbol ==> Held(b', other) == Held(b, other)
  {
    match o.side
    case BUY => BuyOfKeepsConsistent(b, o.symbol, f.quantity, f.price, costs.total, date);
    case SELL => SellKeepsConsistent(b, o.symbol, f.quantity, f.price, costs.total - costs.tax, costs.tax, date);
    case HOLD =>
  }

  // ----- the pipeline

  /** What the order manager's collaborators answer. Executions are numbered over the order's life. */
  datatype World = World(
    costOf: (int, real) -> Costs,
    riskApproves: bool,
    hasBackend: bool,
    execute: nat -> FillResult)

  /** Every successful fill is for at least one share. */
  ghost predicate FillsPositive(w: World) {
    forall n: nat :: w.execute(n).success ==> w.execute(n).quantity > 0
  }

  /** The state an order's processing works on: order, ledger, executions so far. */
  datatype Desk = Desk(order: Order, book: Book, executions: nat)

  /** Python's a // b. */
  function FloorDiv(a: real, b: real): int
    requires b > 0.0
  {
    (a / b).Floor
  }

  function CalculateQuantity(b: Book, s: Signal, price: real): int {
    if price <= 0.0 then 0 else FloorDiv(Times(b.cash, s.weight), price)
  }

  function QuantityOf(b: Book, s: Signal, price: real): int {
    if s.quantity.Some? && s.quantity.value != 0 then s.quantity.value else CalculateQuantity(b, s, price)
  }

  predicate IsValidOrder(b: Book, o: Order, price: real) {
    && o.quantity > 0
    && (o.side.BUY? ==> Cost(o.quantity, price) <= b.cash)
    && (o.side.SELL? ==> o.symbol in b.positions && b.positions[o.symbol].quantity >= o.quantity)
  }

  predicate TooCostly(s: Signal, quantity: int, price: real, costs: Costs) {
    s.maxCostPct.Some? &&
    var value := Cost(quantity, price);
    value <= 0.0 || (costs.total - costs.tax) / value > s.maxCostPct.value
  }

  /** Execute and reconcile once: the common tail of process_signal and of each continuation attempt. */
  ghost function Attempt(w: World, d: Desk, costs: Costs, date: int): (Desk, Option<Ledger.Error>)
    requires Consistent(d.book) && FillsPositive(w)
  {
    var f := w.execute(d.executions);
    var d' := d.(executions := d.executions + 1);
    if !f.success then (d'.(order := MoveTo(d.order, Failed)), None)
    else
      var fill := Fill(f.price, f.quantity);
      var settled := Settle(d.book, d.order, fill, costs, date);
      var d'' := d'.(order := Absorb(d.order, fill));
      if settled.Ok? then (d''.(book := settled.value), None) else (d'', Some(settled.error))
  }

  ghost function Process(w: World, b: Book, s: Signal, price: real, date: int): (Desk, Option<Ledger.Error>)
    requires Consistent(b) && FillsPositive(w)
  {
    var o := New(s.symbol, s.side, QuantityOf(b, s, price));
    if !IsValidOrder(b, o, price) then (Desk(MoveTo(o, Rejected), b, 0), None)
    else
      var costs := w.costOf(o.quantity, price);
      var costed := MoveTo(MoveTo(o, Validated), Costed);
      if TooCostly(s, o.quantity, price, costs) || !w.riskApproves then (Desk(MoveTo(costed, RiskRejected), b, 0), None)
      else
        var approved := MoveTo(costed, RiskApproved);
        if !w.hasBackend then (Desk(MoveTo(approved, Failed), b, 0), None)
        else Attempt(w, Desk(MoveTo(approved, Submitted), b, 0), costs, date)
  }

  /** The continuation loop with `left` attempts to go. */
  ghost function Continue(w: World, d: Desk, price: real, left: nat, date: int): (Desk, Option<Ledger.Error>)
    requires Consistent(d.book) && FillsPositive(w)
    decreases left
  {
    if !d.order.status.PartiallyFilled? || left == 0 then (d, None)
    else
      var remaining := d.order.quantity - FilledSoFar(d.order);
      if remaining <= 0 then (d, None)
      else
        var r := Attempt(w, d, w.costOf(remaining, price), date);
        if r.1.Some? then r
        else
          AttemptKeepsBook(w, d, w.costOf(remaining, price), date);
          Continue(w, r.0, price, left - 1, date)
  }

  /** One turn of the continuation loop. */
  lemma ContinueTurns(w: World, d: Desk, price: real, left: nat, date: int)
    requires Consistent(d.book) && FillsPositive(w)
    requires d.order.status.PartiallyFilled? && left > 0 && d.order.quantity - FilledSoFar(d.order) > 0
    ensures var r := Attempt(w, d, w.costOf(d.order.quantity - FilledSoFar(d.order), price), date);
            && Consistent(r.0.book)
            && Continue(w, d, price, left, date) == if r.1.Some? then r else Continue(w, r.0, price, left - 1, date)
  {
    hide Attempt;
    AttemptKeepsBook(w, d, w.costOf(d.order.quantity - FilledSoFar(d.order), price), date);
  }

  lemma ContinueStops(w: World, d: Desk, price: real, left: nat, date: int)
    requires Consistent(d.book) && FillsPositive(w)
    requires !d.order.status.PartiallyFilled? || left == 0 || d.order.quantity - FilledSoFar(d.order) <= 0
    ensures Continue(w, d, price, left, date) == (d, None)
  {}

  /** What one call may do to a desk. */
  ghost predicate Progress(d: Desk, d': Desk) {
    && Sound(d'.order) && Consistent(d'.book)
    && d'.order.symbol == d.order.symbol && d'.order.side == d.order.side && d'.order.quantity == d.order.quantity
    && Held(d'.book, d.order.symbol)
       == Held(d.book, d.order.symbol) + Signed(d.order.side, FilledSoFar(d'.order) - FilledSoFar(d.order))
    && (forall other :: other != d.order.symbol ==> Held(d'.book, other) == Held(d.book, other))
    && d.order.fills <= d'.order.fills
    && d.order.history <= d'.order.history
  }

  lemma AttemptKeepsBook(w: World, d: Desk, costs: Costs, date: int)
    requires Consistent(d.book) && FillsPositive(w)
    ensures Consistent(Attempt(w, d, costs, date).0.book)
  {
    var f := w.execute(d.executions);
    if f.success && Settle(d.book, d.order, Fill(f.price, f.quantity), costs, date).Ok? {
      SettleMovesPosition(d.book, d.order, Fill(f.price, f.quantity), costs, date);
    }
  }

  lemma AttemptProgresses(w: World, d: Desk, costs: Costs, date: int)
    requires Consistent(d.book) && FillsPositive(w) && Sound(d.order)
    requires d.order.status.Submitted? || d.order.status.PartiallyFilled?
    requires Attempt(w, d, costs, date).1.None?
    ensures Progress(d, Attempt(w, d, costs, date).0)
  {
    var f := w.execute(d.executions);
    if f.success {
      AbsorbSound(d.order, Fill(f.price, f.quantity));
      AbsorbAccounts(d.order, Fill(f.price, f.quantity));
      SettleMovesPosition(d.book, d.order, Fill(f.price, f.quantity), costs, date);
    } else {
      MoveSound(d.order, Failed);
    }
  }

  lemma ProgressTransitive(a: Desk, b: Desk, c: Desk)
    requires Progress(a, b) && Progress(b, c)
    ensures Progress(a, c)
  {}

  lemma ProgressReflexive(d: Desk)
    requires Sound(d.order) && Consistent(d.book)
    ensures Progress(d, d)
  {}

  lemma {:induction false} ContinueProgresses(w: World, d: Desk, price: real, left: nat, date: int)
    requires Consistent(d.book) && FillsPositive(w) && Sound(d.order)
    requires Continue(w, d, price, left, date).1.None?
    ensures Progress(d, Continue(w, d, price, left, date).0)
    ensures d.executions <= Continue(w, d, price, left, date).0.executions <= d.executions + left
    decreases left
  {
    hide Continue, Attempt, Progress;
    if !d.order.status.PartiallyFilled? || left == 0 || d.order.quantity - FilledSoFar(d.order) <= 0 {
      ContinueStops(w, d, price, left, date);
      ProgressReflexive(d);
    } else {
      var costs := w.costOf(d.order.quantity - FilledSoFar(d.order), price);
      var mid := Attempt(w, d, costs, date).0;
      ContinueTurns(w, d, price, left, date);
      AttemptProgresses(w, d, costs, date);
      AttemptCounts(w, d, costs, date);
      ProgressKeeps(d, mid);
      ContinueProgresses(w, mid, price, left - 1, date);
      ProgressTransitive(d, mid, Continue(w, mid, price, left - 1, date).0);
    }
  }

  lemma ProgressKeeps(d: Desk, d': Desk)
    requires Progress(d, d')
    ensures Sound(d'.order) && Consistent(d'.book)
  {}

  lemma AttemptCounts(w: World, d: Desk, costs: Costs, date: int)
    requires Consistent(d.book) && FillsPositive(w)
    ensures Attempt(w, d, costs, date).0.executions == d.executions + 1
  {}

  // ----- whole lives of an order

  /** One continue_order call: its collaborators, reference price, retry cap and time. */
  datatype Call = Call(w: World, price: Option<real>, maxRetries: int, date: int)

  function Cap(maxRetries: int): nat {
    if maxRetries > 1 then maxRetries else 1
  }

  function PriceOf(o: Order, price: Option<real>): real {
    if price.Some? then price.value else Vwap(o)
  }

  /** continue_order on a known order; None when it raises. */
  ghost function ContinueCall(d: Desk, c: Call): (r: Option<Desk>)
    requires Consistent(d.book) && FillsPositive(c.w)
  {
    if !d.order.status.PartiallyFilled? || !c.w.hasBackend then None
    else
      var r := Continue(c.w, d, PriceOf(d.order, c.price), Cap(c.maxRetries), c.date);
      if r.1.None? then Some(r.0) else None
  }

  /** A signal processed and then continued by `calls`; None as soon as one of them raises. */
  ghost function Life(w: World, b: Book, s: Signal, price: real, date: int, calls: seq<Call>): (r: Option<Desk>)
    requires Consistent(b) && FillsPositive(w) && forall i :: 0 <= i < |calls| ==> FillsPositive(calls[i].w)
    ensures r.Some? ==> Sound(r.value.order) && Consistent(r.value.book)
    decreases calls
  {
    if calls == [] then
      var r := Process(w, b, s, price, date);
      if r.1.None? then
        ProcessProgresses(w, b, s, price, date);
        Some(r.0)
      else None
    else
      var before := Life(w, b, s, price, date, calls[..|calls| - 1]);
      if before.None? then None
      else
        var c := calls[|calls| - 1];
        ContinueCallProgresses(before.value, c);
        ContinueCall(before.value, c)
  }

  lemma NewSound(symbol: string, side: Side, quantity: int)
    ensures Sound(New(symbol, side, quantity))
  {}

  /** One transition without a fill. */
  lemma MoveProgresses(d: Desk, s: Status)
    requires Consistent(d.book) && Sound(d.order) && Edge(d.order.status, s) && !s.Filled? && !s.PartiallyFilled?
    requires s.Validated? ==> d.order.quantity > 0
    ensures Progress(d, d.(order := MoveTo(d.order, s)))
  {
    MoveSound(d.order, s);
  }

  lemma UpToApproval(d: Desk) returns (approved: Desk)
    requires Consistent(d.book) && Sound(d.order) && d.order.status.Pending? && d.order.quantity > 0
    ensures approved == d.(order := MoveTo(MoveTo(MoveTo(d.order, Validated), Costed), RiskApproved)) && Progress(d, approved)
    ensures Progress(d, d.(order := MoveTo(MoveTo(MoveTo(d.order, Validated), Costed), RiskRejected)))
  {
    var validated := d.(order := MoveTo(d.order, Validated));
    var costed := validated.(order := MoveTo(validated.order, Costed));
    approved := costed.(order := MoveTo(costed.order, RiskApproved));
    MoveProgresses(d, Validated);
    MoveProgresses(validated, Costed);
    ProgressTransitive(d, validated, costed);
    MoveProgresses(costed, RiskApproved);
    MoveProgresses(costed, RiskRejected);
    ProgressTransitive(d, costed, approved);
    ProgressTransitive(d, costed, costed.(order := MoveTo(costed.order, RiskRejected)));
  }

  /** The signal pipeline keeps the accounts and executes at most once. */
  lemma ProcessProgresses(w: World, b: Book, s: Signal, price: real, date: int)
    requires Consistent(b) && FillsPositive(w) && Process(w, b, s, price, date).1.None?
    ensures Progress(Desk(New(s.symbol, s.side, QuantityOf(b, s, price)), b, 0), Process(w, b, s, price, date).0)
    ensures Process(w, b, s, price, date).0.executions <= 1
  {
    var d := Desk(New(s.symbol, s.side, QuantityOf(b, s, price)), b, 0);
    NewSound(s.symbol, s.side, QuantityOf(b, s, price));
    if !IsValidOrder(b, d.order, price) {
      MoveProgresses(d, Rejected);
    } else {
      var costs := w.costOf(d.order.quantity, price);
      var approved := UpToApproval(d);
      if !TooCostly(s, d.order.quantity, price, costs) && w.riskApproves {
        if !w.hasBackend {
          MoveProgresses(approved, Failed);
          ProgressTransitive(d, approved, approved.(order := MoveTo(approved.order, Failed)));
        } else {
          var submitted := approved.(order := MoveTo(approved.order, Submitted));
          MoveProgresses(approved, Submitted);
          AttemptProgresses(w, submitted, costs, date);
          ProgressTransitive(d, approved, submitted);
          ProgressTransitive(d, submitted, Attempt(w, submitted, costs, date).0);
        }
      }
    }
  }

  /** A continuation call keeps the accounts and makes at most max(1, max_retries) executions. */
  lemma ContinueCallProgresses(d: Desk, c: Call)
    requires Consistent(d.book) && FillsPositive(c.w) && Sound(d.order)
    ensures ContinueCall(d, c).Some? ==>
              && Progress(d, ContinueCall(d, c).value)
              && ContinueCall(d, c).value.executions <= d.executions + Cap(c.maxRetries)
  {
    if ContinueCall(d, c).Some? {
      ContinueProgresses(c.w, d, PriceOf(d.order, c.price), Cap(c.maxRetries), c.date);
    }
  }

  /** After any life: quantity and average are those of the fills, and the position moved by exactly that quantity. */
  lemma {:induction false} LifeIsAccounted(w: World, b: Book, s: Signal, price: real, date: int, calls: seq<Call>)
    requires Consistent(b) && FillsPositive(w) && forall i :: 0 <= i < |calls| ==> FillsPositive(calls[i].w)
    requires Life(w, b, s, price, date, calls).Some?
    ensures var d := Life(w, b, s, price, date, calls).value;
            && FilledSoFar(d.order) == SumQty(d.order.fills)
            && Cost(FilledSoFar(d.order), Vwap(d.order)) == SumValue(d.order.fills)
            && Held(d.book, s.symbol) == Held(b, s.symbol) + Signed(s.side, FilledSoFar(d.order))
            && d.order.symbol == s.symbol && d.order.side == s.side
            && forall other :: other != s.symbol ==> Held(d.book, other) == Held(b, other)
    decreases calls
  {
    if calls == [] {
      ProcessProgresses(w, b, s, price, date);
    } else {
      var init, c := calls[..|calls| - 1], calls[|calls| - 1];
      LifeIsAccounted(w, b, s, price, date, init);
      ContinueCallProgresses(Life(w, b, s, price, date, init).value, c);
    }
  }

  /** After any life a filled or partially filled order was validated, costed, approved and submitted, in that order. */
  lemma FilledOnlyThroughPipeline(w: World, b: Book, s: Signal, price: real, date: int, calls: seq<Call>)
    requires Consistent(b) && FillsPositive(w) && forall i :: 0 <= i < |calls| ==> FillsPositive(calls[i].w)
    requires Life(w, b, s, price, date, calls).Some?
    ensures var o := Life(w, b, s, price, date, calls).value.order;
            && Path(o.history, o.status)
            && (o.fills != [] ==> PIPELINE <= o.history)
            && (o.status.Filled? || o.status.PartiallyFilled? ==> PIPELINE < o.history)
            && (o.status.Filled? ==> FilledSoFar(o) >= o.quantity)
            && (o.status.PartiallyFilled? ==> FilledSoFar(o) < o.quantity)
  {
    var o := Life(w, b, s, price, date, calls).value.order;
    PathFollowsPipeline(o.history, o.status);
  }
}
