/**
 The order manager as objects (engine/core/order_manager.py): orders are
 mutated in place by each transition and each fill. Every method is tied to
 the order lifecycle of the Orders module.
 */
module OrderManagerObject {
  import opened Wrappers
  import opened TaxLots
  import opened Ledger
  import opened Orders

  class OrderObject {
    const id: nat
    const symbol: string
    const side: Orders.Side
    const quantity: int
    var status: Status
    var history: seq<Transition>
    var fillPrice: Option<real>
    var fillQuantity: Option<int>
    var fills: seq<Fill>

    ghost function State(): Order
      reads this
    {
      Order(symbol, side, quantity, status, history, fillPrice, fillQuantity, fills)
    }

    constructor (id: nat, symbol: string, side: Orders.Side, quantity: int)
      ensures this.id == id && State() == New(symbol, side, quantity)
    {
      this.id, this.symbol, this.side, this.quantity := id, symbol, side, quantity;
      status, history, fillPrice, fillQuantity, fills := Pending, [], None, None, [];
    }

    method TransitionTo(s: Status)
      modifies this
      ensures State() == MoveTo(old(State()), s)
    {
      history := history + [Transition(status, s)];
      status := s;
    }

    /** The order's part of _reconcile_fill. */
    method AbsorbFill(f: Fill)
      modifies this
      ensures State() == Absorb(old(State()), f)
    {
      var priorQty := if fillQuantity.Some? then fillQuantity.value else 0;
      var priorVwap := if fillPrice.Some? then fillPrice.value else 0.0;
      fillPrice := Some(Average(priorVwap, priorQty, f));
      fillQuantity := Some(priorQty + f.quantity);
      fills := fills + [f];
      if fillQuantity.value < quantity {
        TransitionTo(PartiallyFilled);
      } else {
        TransitionTo(Status.Filled);
      }
    }
  }

  class OrderManager {
    var book: Book
    var completed: seq<OrderObject>
    var nextId: nat

    ghost function DeskOf(o: OrderObject, executions: nat): Desk
      reads this, o
    {
      Desk(o.State(), book, executions)
    }

    constructor (book: Book)
      ensures this.book == book && completed == []
    {
      this.book, completed, nextId := book, [], 0;
    }

    /** _reconcile_fill: the order first, then the portfolio, which may still raise. */
    method ReconcileFill(o: OrderObject, f: Fill, costs: Costs, date: int) returns (raised: Option<Ledger.Error>)
      requires Consistent(book) && f.quantity > 0
      modifies this`book, o
      ensures o.State() == Absorb(old(o.State()), f)
      ensures var settled := old(Settle(book, o.State(), f, costs, date));
              && raised == (if settled.Ok? then None else Some(settled.error))
              && book == if settled.Ok? then settled.value else old(book)
      ensures Consistent(book)
    {
      ghost var before, order := book, o.State();
      o.AbsorbFill(f);
      raised := None;
      match o.side
      case BUY =>
        assert SymbolConsistent(book, o.symbol);
        if o.symbol in book.positions { HeldIsPositive(book, o.symbol); }
        BuyOfKeepsConsistent(book, o.symbol, f.quantity, f.price, costs.total, date);
        var r := Buy(book, o.symbol, f.quantity, f.price, costs.total, date);
        if r.Ok? {
          book := r.value;
        } else {
          raised := Some(r.error);
        }
      case SELL =>
        var r := Sell(book, o.symbol, f.quantity, f.price, costs.total - costs.tax, costs.tax, date);
        if r.Ok? {
          SellKeepsConsistent(book, o.symbol, f.quantity, f.price, costs.total - costs.tax, costs.tax, date);
          book := r.value.0;
        } else {
          raised := Some(r.error);
        }
      case HOLD =>
    }

    /** Execute once and reconcile or fail. */
    method ExecuteOnce(w: World, o: OrderObject, executions: nat, costs: Costs, date: int) returns (raised: Option<Ledger.Error>)
      requires Consistent(book) && FillsPositive(w)
      modifies this`book, o
      ensures Consistent(book)
      ensures (DeskOf(o, executions + 1), raised) == old(Attempt(w, DeskOf(o, executions), costs, date))
    {
      var f := w.execute(executions);
      if f.success {
        raised := ReconcileFill(o, Fill(f.price, f.quantity), costs, date);
      } else {
        o.TransitionTo(Failed);
        raised := None;
      }
    }

    /** The signal pipeline. Only an order that reached the backend without raising is recorded. */
    method ProcessSignal(w: World, s: Signal, price: real, date: int)
      returns (o: OrderObject, executions: nat, raised: Option<Ledger.Error>)
      requires Consistent(book) && FillsPositive(w)
      modifies this
      ensures fresh(o) && Consistent(book)
      ensures (DeskOf(o, executions), raised) == old(Process(w, book, s, price, date))
      ensures completed == if executions > 0 && raised.None? then old(completed) + [o] else old(completed)
    {
      hide Attempt, Consistent, FillsPositive;
      var quantity := if s.quantity.Some? && s.quantity.value != 0 then s.quantity.value else CalculateQuantity(book, s, price);
      o := new OrderObject(nextId, s.symbol, s.side, quantity);
      nextId := nextId + 1;
      executions, raised := 0, None;
      var valid := ValidateOrder(o, price);
      if !valid {
        o.TransitionTo(Rejected);
        return;
      }
      o.TransitionTo(Validated);
      var costs := w.costOf(o.quantity, price);
      o.TransitionTo(Costed);
      if TooCostly(s, o.quantity, price, costs) {
        o.TransitionTo(RiskRejected);
        return;
      }
      if !w.riskApproves {
        o.TransitionTo(RiskRejected);
        return;
      }
      o.TransitionTo(RiskApproved);
      if !w.hasBackend {
        o.TransitionTo(Failed);
        return;
      }
      o.TransitionTo(Submitted);
      executions := 1;
      raised := ExecuteOnce(w, o, 0, costs, date);
      if raised.None? {
        completed := completed + [o];
      }
    }

    method ValidateOrder(o: OrderObject, price: real) returns (valid: bool)
      ensures valid == IsValidOrder(book, o.State(), price)
    {
      if o.quantity <= 0 {
        return false;
      }
      if o.side.BUY? {
        var requiredCash := Cost(o.quantity, price);
        if requiredCash > book.cash {
          return false;
        }
      } else if o.side.SELL? {
        if o.symbol !in book.positions || book.positions[o.symbol].quantity < o.quantity {
          return false;
        }
      }
      return true;
    }

    method FindOrder(id: nat) returns (o: OrderObject?)
      ensures o == null ==> forall c :: c in completed ==> c.id != id
      ensures o != null ==> o in completed && o.id == id
    {
      for i := 0 to |completed|
        invariant forall c :: c in completed[..i] ==> c.id != id
      {
        if completed[i].id == id {
          return completed[i];
        }
      }
      assert completed[..|completed|] == completed;
      return null;
    }

    /** continue_order: at most max(1, maxRetries) executions of what is left. */
    method ContinueOrder(id: nat, w: World, marketPrice: Option<real>, maxRetries: int, date: int, first: nat)
      returns (o: OrderObject?, executions: nat, error: Option<OrderError>)
      requires Consistent(book) && FillsPositive(w)
      modifies this`book, completed
      ensures Consistent(book)
      ensures o == null ==> error == Some(UnknownOrder) && executions == first && book == old(book)
      ensures o != null ==> o in completed && o.id == id
      ensures completed == old(completed) && forall c :: c in completed && c != o ==> c.State() == old(c.State())
      ensures o != null && !old(o.status).PartiallyFilled? ==> error == Some(NotPartiallyFilled) && DeskOf(o, executions) == old(DeskOf(o, first))
      ensures o != null && old(o.status).PartiallyFilled? && !w.hasBackend ==> error == Some(NoBackend) && DeskOf(o, executions) == old(DeskOf(o, first))
      ensures o != null && old(o.status).PartiallyFilled? && w.hasBackend ==>
                var r := old(Continue(w, DeskOf(o, first), PriceOf(o.State(), marketPrice), Cap(maxRetries), date));
                && DeskOf(o, executions) == r.0
                && error == if r.1.Some? then Some(Raised(r.1.value)) else None
    {
      executions, error := first, None;
      o := FindOrder(id);
      if o == null {
        return null, first, Some(UnknownOrder);
      }
      if o.status != PartiallyFilled {
        return o, first, Some(NotPartiallyFilled);
      }
      if !w.hasBackend {
        return o, first, Some(NoBackend);
      }
      var price := if marketPrice.Some? then marketPrice.value else if o.fillPrice.Some? then o.fillPrice.value else 0.0;
      var raised;
      executions, raised := ContinueLoop(o, w, price, Cap(maxRetries), date, first);
      error := if raised.Some? then Some(Raised(raised.value)) else None;
    }

    method ContinueLoop(o: OrderObject, w: World, price: real, cap: nat, date: int, first: nat)
      returns (executions: nat, raised: Option<Ledger.Error>)
      requires Consistent(book) && FillsPositive(w)
      modifies this`book, o
      ensures Consistent(book)
      ensures (DeskOf(o, executions), raised) == old(Continue(w, DeskOf(o, first), price, cap, date))
    {
      hide Continue, Attempt, Consistent, FillsPositive;
      var attempts := 0;
      executions, raised := first, None;
      ghost var whole := Continue(w, DeskOf(o, first), price, cap, date);
      while o.status == PartiallyFilled && attempts < cap
        invariant attempts <= cap && Consistent(book) && raised == None
        invariant Continue(w, DeskOf(o, executions), price, cap - attempts, date) == whole
      {
        ghost var left := cap - attempts;
        attempts := attempts + 1;
        var remaining := o.quantity - (if o.fillQuantity.Some? then o.fillQuantity.value else 0);
        if remaining <= 0 {
          ContinueStops(w, DeskOf(o, executions), price, left, date);
          break;
        }
        ContinueTurns(w, DeskOf(o, executions), price, left, date);
        var costs := w.costOf(remaining, price);
        raised := ExecuteOnce(w, o, executions, costs, date);
        executions := executions + 1;
        if raised.Some? {
          return;
        }
      }
      ContinueStops(w, DeskOf(o, executions), price, cap - attempts, date);
    }
  }
}
