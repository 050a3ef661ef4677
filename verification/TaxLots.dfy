/**
 Tax lots as values: the order in which a sale consumes them, what it takes
 (engine/core/portfolio.py, _consume_lots). Instants are microseconds.
 */
module TaxLots {
  import opened Sorting
  import opened Sums

  datatype TaxMethod = Fifo | Lifo | SpecificLot

  datatype Lot = Lot(id: nat, price: real, date: int, quantity: int)

  /** What a sale took from one lot. */
  datatype Taken = Taken(lotId: nat, quantity: int, price: real, date: int, longTerm: bool)

  const MICROSECONDS_PER_DAY: int := 86_400_000_000

  function Min(a: int, b: int): int { if a <= b then a else b }

  /** Held for at least 365 whole days; Python's timedelta.days floors. */
  predicate IsLongTerm(purchased: int, asOf: int) {
    (asOf - purchased) / MICROSECONDS_PER_DAY >= 365
  }

  /** quantity * price, as the cost_basis property of a lot. */
  function Cost(quantity: int, price: real): real { quantity as real * price }

  function Qty(lots: seq<Lot>): int {
    if lots == [] then 0 else lots[0].quantity + Qty(lots[1..])
  }

  function Basis(lots: seq<Lot>): real {
    if lots == [] then 0.0 else Cost(lots[0].quantity, lots[0].price) + Basis(lots[1..])
  }

  function TakenQty(ts: seq<Taken>): int {
    if ts == [] then 0 else ts[0].quantity + TakenQty(ts[1..])
  }

  function TakenBasis(ts: seq<Taken>): real {
    if ts == [] then 0.0 else Cost(ts[0].quantity, ts[0].price) + TakenBasis(ts[1..])
  }

  ghost predicate DistinctIds(lots: seq<Lot>) {
    forall i, j :: 0 <= i < j < |lots| ==> lots[i].id != lots[j].id
  }

  ghost predicate AllPositive(lots: seq<Lot>) {
    forall i :: 0 <= i < |lots| ==> lots[i].quantity > 0
  }

  // ----- the order of consumption

  /** Whether a lot bought at `a` may be consumed before one bought at `b`. */
  predicate MayPrecede(tm: TaxMethod, a: int, b: int) {
    match tm
    case Fifo => a <= b
    case Lifo => a >= b
    case SpecificLot => true
  }

  function Ordered(lots: seq<Lot>, tm: TaxMethod): seq<Lot> {
    if tm.SpecificLot? then lots else Sort(lots, (a: Lot, b: Lot) => MayPrecede(tm, a.date, b.date))
  }

  lemma OrderedFacts(lots: seq<Lot>, tm: TaxMethod)
    ensures multiset(Ordered(lots, tm)) == multiset(lots)
    ensures InOrder(tm, Ordered(lots, tm))
  {
    var le := (a: Lot, b: Lot) => MayPrecede(tm, a.date, b.date);
    SortPermutes(lots, le);
    SortSorts(lots, le);
  }

  // ----- consumption

  /** `lot.quantity -= amount`, and the lot leaves the list once it is used up. */
  function Deduct(lots: seq<Lot>, id: nat, amount: int): seq<Lot> {
    if lots == [] then []
    else if lots[0].id == id then
      (if lots[0].quantity - amount <= 0 then [] else [lots[0].(quantity := lots[0].quantity - amount)]) + lots[1..]
    else [lots[0]] + Deduct(lots[1..], id, amount)
  }

  datatype Consumption = Consumption(lots: seq<Lot>, taken: seq<Taken>, unfilled: int)

  function TakeFrom(lot: Lot, amount: int, sellDate: int): Taken {
    Taken(lot.id, amount, lot.price, lot.date, IsLongTerm(lot.date, sellDate))
  }

  /** The consuming loop: `queue` is what is left of the ordered copy of `lots`. */
  function Consume(lots: seq<Lot>, queue: seq<Lot>, quantity: int, sellDate: int): Consumption
    decreases queue
  {
    if quantity <= 0 || queue == [] then Consumption(lots, [], quantity)
    else
      var amount := Min(quantity, queue[0].quantity);
      var rest := Consume(Deduct(lots, queue[0].id, amount), queue[1..], quantity - amount, sellDate);
      rest.(taken := [TakeFrom(queue[0], amount, sellDate)] + rest.taken)
  }

  function ConsumeLots(lots: seq<Lot>, tm: TaxMethod, quantity: int, sellDate: int): Consumption {
    Consume(lots, Ordered(lots, tm), quantity, sellDate)
  }

  lemma {:induction false} DeductAt(lots: seq<Lot>, k: nat, amount: int)
    requires k < |lots| && DistinctIds(lots)
    ensures Deduct(lots, lots[k].id, amount) ==
            lots[..k] + (if lots[k].quantity - amount <= 0 then [] else [lots[k].(quantity := lots[k].quantity - amount)]) + lots[k + 1..]
  {
    if k > 0 {
      assert lots[0].id != lots[k].id;
      DeductAt(lots[1..], k - 1, amount);
      assert lots[1..][k - 1] == lots[k];
      assert [lots[0]] + lots[1..][..k - 1] == lots[..k];
      assert lots[1..][k..] == lots[k + 1..];
    } else {
      assert lots[..0] == [];
    }
  }

  lemma {:induction false} QtyConcat(a: seq<Lot>, b: seq<Lot>)
    ensures Qty(a + b) == Qty(a) + Qty(b)
    ensures Basis(a + b) == Basis(a) + Basis(b)
  {
    if a == [] {
      assert a + b == b;
    } else {
      assert (a + b)[1..] == a[1..] + b;
      QtyConcat(a[1..], b);
    }
  }

  lemma CostSub(a: int, b: int, p: real)
    ensures Cost(a - b, p) == Cost(a, p) - Cost(b, p)
  {
    assert (a - b) as real == a as real - b as real;
  }

  lemma SplitSums(lots: seq<Lot>, k: nat)
    requires k < |lots|
    ensures Qty(lots) == Qty(lots[..k]) + lots[k].quantity + Qty(lots[k + 1..])
    ensures Basis(lots) == Basis(lots[..k]) + Cost(lots[k].quantity, lots[k].price) + Basis(lots[k + 1..])
  {
    assert lots == lots[..k] + lots[k..];
    QtyConcat(lots[..k], lots[k..]);
    assert lots[k..][1..] == lots[k + 1..];
  }

  /** Deducting at most a lot's quantity moves exactly that quantity and its cost out of the list. */
  lemma DeductMoves(lots: seq<Lot>, k: nat, amount: int)
    requires k < |lots| && DistinctIds(lots) && 0 < amount <= lots[k].quantity
    ensures Qty(Deduct(lots, lots[k].id, amount)) == Qty(lots) - amount
    ensures Basis(Deduct(lots, lots[k].id, amount)) == Basis(lots) - Cost(amount, lots[k].price)
  {
    var l := lots[k];
    var after := Deduct(lots, l.id, amount);
    DeductAt(lots, k, amount);
    SplitSums(lots, k);
    CostSub(l.quantity, amount, l.price);
    if l.quantity == amount {
      assert after == lots[..k] + lots[k + 1..];
      QtyConcat(lots[..k], lots[k + 1..]);
    } else {
      assert after == lots[k := l.(quantity := l.quantity - amount)];
      assert after[..k] == lots[..k] && after[k + 1..] == lots[k + 1..];
      SplitSums(after, k);
    }
  }

  lemma DeductUsedUp(lots: seq<Lot>, k: nat)
    requires k < |lots| && DistinctIds(lots)
    ensures Deduct(lots, lots[k].id, lots[k].quantity) == lots[..k] + lots[k + 1..]
    ensures multiset(Deduct(lots, lots[k].id, lots[k].quantity)) == multiset(lots) - multiset{lots[k]}
  {
    DeductAt(lots, k, lots[k].quantity);
    assert lots[..k] + [] == lots[..k];
    MultisetRemove(lots, k);
  }

  lemma DeductInPart(lots: seq<Lot>, k: nat, amount: int)
    requires k < |lots| && DistinctIds(lots) && amount < lots[k].quantity
    ensures Deduct(lots, lots[k].id, amount) == lots[k := lots[k].(quantity := lots[k].quantity - amount)]
  {
    DeductAt(lots, k, amount);
  }

  lemma DeductShape(lots: seq<Lot>, k: nat, amount: int)
    requires k < |lots| && DistinctIds(lots) && AllPositive(lots) && 0 < amount <= lots[k].quantity
    ensures DistinctIds(Deduct(lots, lots[k].id, amount)) && AllPositive(Deduct(lots, lots[k].id, amount))
  {
    if amount == lots[k].quantity {
      DeductUsedUp(lots, k);
    } else {
      DeductInPart(lots, k, amount);
    }
  }

  // ----- what a sale takes and leaves

  /** The sale's loop state: the queue lists the lots, each once, in consuming order. */
  ghost predicate Queued(lots: seq<Lot>, queue: seq<Lot>)
    decreases queue
  {
    && DistinctIds(lots) && AllPositive(lots)
    && if queue == [] then lots == []
       else queue[0] in lots && Queued(Deduct(lots, queue[0].id, queue[0].quantity), queue[1..])
  }

  lemma {:induction false} PermutationIsQueued(lots: seq<Lot>, queue: seq<Lot>)
    requires DistinctIds(lots) && AllPositive(lots) && multiset(lots) == multiset(queue)
    ensures Queued(lots, queue)
    decreases queue
  {
    assert |multiset(lots)| == |multiset(queue)|;
    if queue != [] {
      HeadLeaves(lots, queue);
      PermutationIsQueued(Deduct(lots, queue[0].id, queue[0].quantity), queue[1..]);
    }
  }

  /** Using up the head of a queue leaves a permutation of its tail. */
  lemma HeadLeaves(lots: seq<Lot>, queue: seq<Lot>)
    requires DistinctIds(lots) && AllPositive(lots) && multiset(lots) == multiset(queue) && queue != []
    ensures var after := Deduct(lots, queue[0].id, queue[0].quantity);
            queue[0] in lots && DistinctIds(after) && AllPositive(after) && multiset(after) == multiset(queue[1..])
  {
    hide Deduct;
    assert queue[0] in multiset(lots);
    var k :| 0 <= k < |lots| && lots[k] == queue[0];
    DeductUsedUp(lots, k);
    DeductShape(lots, k, lots[k].quantity);
    MultisetRemove(queue, 0);
    assert queue[..0] + queue[1..] == queue[1..];
  }

  /** One turn of the loop: either the head is used up and the queue moves on, or the sale is complete. */
  lemma ConsumeStep(lots: seq<Lot>, queue: seq<Lot>, quantity: int) returns (amount: int, after: seq<Lot>)
    requires Queued(lots, queue) && 0 < quantity && queue != []
    ensures amount == Min(quantity, queue[0].quantity) && after == Deduct(lots, queue[0].id, amount)
    ensures Qty(after) == Qty(lots) - amount && Basis(after) == Basis(lots) - Cost(amount, queue[0].price)
    ensures DistinctIds(after) && AllPositive(after)
    ensures amount == queue[0].quantity || amount == quantity
    ensures amount < queue[0].quantity ==> Dates(after) == Dates(lots)
  {
    var k :| 0 <= k < |lots| && lots[k] == queue[0];
    amount := Min(quantity, queue[0].quantity);
    after := Deduct(lots, queue[0].id, amount);
    DeductMoves(lots, k, amount);
    DeductShape(lots, k, amount);
    if amount < queue[0].quantity {
      DeductInPart(lots, k, amount);
    }
  }

  function Dates(lots: seq<Lot>): seq<int> {
    seq(|lots|, i requires 0 <= i < |lots| => lots[i].date)
  }

  /** Using up one lot keeps every other lot. */
  lemma OthersRemain(lots: seq<Lot>, head: Lot, l: Lot)
    requires DistinctIds(lots) && head in lots && l in lots && l != head
    ensures l in Deduct(lots, head.id, head.quantity)
  {
    var k :| 0 <= k < |lots| && lots[k] == head;
    DeductUsedUp(lots, k);
    assert lots == lots[..k] + [head] + lots[k + 1..];
  }

  lemma {:induction false} LotsAreQueued(lots: seq<Lot>, queue: seq<Lot>, l: Lot)
    requires Queued(lots, queue) && l in lots
    ensures l in queue
    decreases queue
  {
    var head := queue[0];
    if l != head {
      OthersRemain(lots, head, l);
      LotsAreQueued(Deduct(lots, head.id, head.quantity), queue[1..], l);
      assert l in queue[1..];
    }
  }

  ghost predicate Conserved(lots: seq<Lot>, quantity: int, c: Consumption) {
    && Qty(c.lots) == Qty(lots) - TakenQty(c.taken)
    && Basis(c.lots) == Basis(lots) - TakenBasis(c.taken)
    && TakenQty(c.taken) == quantity - c.unfilled
    && c.unfilled == if quantity <= Qty(lots) then 0 else quantity - Qty(lots)
  }

  lemma ConservedCons(lots: seq<Lot>, after: seq<Lot>, quantity: int, t: Taken, rest: Consumption)
    requires Conserved(after, quantity - t.quantity, rest)
    requires Qty(after) == Qty(lots) - t.quantity && Basis(after) == Basis(lots) - Cost(t.quantity, t.price)
    ensures Conserved(lots, quantity, rest.(taken := [t] + rest.taken))
  {
    assert ([t] + rest.taken)[1..] == rest.taken;
  }

  lemma ConservedNil(lots: seq<Lot>, quantity: int)
    requires 0 <= quantity && (quantity == 0 || lots == []) && Qty(lots) >= 0
    ensures Conserved(lots, quantity, Consumption(lots, [], quantity))
  {}

  lemma QueuedMeans(lots: seq<Lot>, queue: seq<Lot>, quantity: int)
    requires Queued(lots, queue)
    ensures AllPositive(lots) && (queue == [] ==> lots == [])
    ensures queue != [] ==> Queued(Deduct(lots, queue[0].id, queue[0].quantity), queue[1..])
  {}

  /** The loop moves quantity and cost from the list to the records, and only runs short of what is not there. */
  lemma {:induction false} ConsumeConserves(lots: seq<Lot>, queue: seq<Lot>, quantity: int, sellDate: int)
    requires Queued(lots, queue) && 0 <= quantity
    ensures Conserved(lots, quantity, Consume(lots, queue, quantity, sellDate))
    decreases queue
  {
    hide Queued, Qty, Basis, Deduct, Cost;
    QueuedMeans(lots, queue, quantity);
    QtyNonNegative(lots);
    if quantity > 0 && queue != [] {
      var amount, after := ConsumeStep(lots, queue, quantity);
      QtyNonNegative(after);
      if amount == queue[0].quantity {
        ConsumeConserves(after, queue[1..], quantity - amount, sellDate);
      } else {
        ConservedNil(after, 0);
      }
      ConservedCons(lots, after, quantity, TakeFrom(queue[0], amount, sellDate), Consume(after, queue[1..], quantity - amount, sellDate));
    } else {
      ConservedNil(lots, quantity);
    }
  }

  lemma {:induction false} ConsumeKeepsShape(lots: seq<Lot>, queue: seq<Lot>, quantity: int, sellDate: int)
    requires Queued(lots, queue)
    ensures var after := Consume(lots, queue, quantity, sellDate).lots; DistinctIds(after) && AllPositive(after)
    decreases queue
  {
    if quantity > 0 && queue != [] {
      var amount, after := ConsumeStep(lots, queue, quantity);
      if amount == queue[0].quantity {
        ConsumeKeepsShape(after, queue[1..], quantity - amount, sellDate);
      }
    }
  }

  lemma {:induction false} QtyNonNegative(lots: seq<Lot>)
    requires AllPositive(lots)
    ensures Qty(lots) >= |lots|
  {
    if lots != [] {
      QtyNonNegative(lots[1..]);
    }
  }

  /** Every lot that is left carries the date of a queued one. */
  lemma {:induction false} LeftDatesAreQueued(lots: seq<Lot>, queue: seq<Lot>, quantity: int, sellDate: int, i: nat) returns (q: Lot)
    requires Queued(lots, queue) && i < |Consume(lots, queue, quantity, sellDate).lots|
    ensures q in queue && q.date == Consume(lots, queue, quantity, sellDate).lots[i].date
    decreases queue
  {
    if quantity <= 0 || queue == [] {
      q := lots[i];
      LotsAreQueued(lots, queue, q);
    } else {
      var amount, after := ConsumeStep(lots, queue, quantity);
      if amount == queue[0].quantity {
        q := LeftDatesAreQueued(after, queue[1..], quantity - amount, sellDate, i);
      } else {
        assert |Dates(after)| == |Dates(lots)| && Dates(after)[i] == Dates(lots)[i];
        q := lots[i];
        LotsAreQueued(lots, queue, q);
      }
    }
  }

  ghost predicate InOrder(tm: TaxMethod, queue: seq<Lot>) {
    forall i, j :: 0 <= i <= j < |queue| ==> MayPrecede(tm, queue[i].date, queue[j].date)
  }

  /** No consumed share comes after a share that is left, in the order of the method. */
  lemma {:induction false} ConsumeRespectsOrder(
      tm: TaxMethod, lots: seq<Lot>, queue: seq<Lot>, quantity: int, sellDate: int, k: nat, i: nat)
    requires Queued(lots, queue) && InOrder(tm, queue)
    requires k < |Consume(lots, queue, quantity, sellDate).taken| && i < |Consume(lots, queue, quantity, sellDate).lots|
    ensures MayPrecede(tm, Consume(lots, queue, quantity, sellDate).taken[k].date,
                       Consume(lots, queue, quantity, sellDate).lots[i].date)
    decreases queue
  {
    if quantity > 0 && queue != [] {
      var amount, after := ConsumeStep(lots, queue, quantity);
      if k == 0 {
        var q := LeftDatesAreQueued(lots, queue, quantity, sellDate, i);
        var j :| 0 <= j < |queue| && queue[j] == q;
      } else {
        ConsumeRespectsOrder(tm, after, queue[1..], quantity - amount, sellDate, k - 1, i);
      }
    }
  }

  /** A sale of no more than is held takes exactly the quantity and its cost, in order. */
  lemma SaleFacts(lots: seq<Lot>, tm: TaxMethod, quantity: int, sellDate: int)
    requires DistinctIds(lots) && AllPositive(lots) && 0 <= quantity <= Qty(lots)
    ensures var c := ConsumeLots(lots, tm, quantity, sellDate);
            && c.unfilled == 0
            && TakenQty(c.taken) == quantity
            && Qty(c.lots) == Qty(lots) - quantity
            && Basis(c.lots) + TakenBasis(c.taken) == Basis(lots)
            && DistinctIds(c.lots) && AllPositive(c.lots)
  {
    hide Ordered, Consume, Queued, Qty, Basis, TakenQty, TakenBasis;
    OrderedFacts(lots, tm);
    PermutationIsQueued(lots, Ordered(lots, tm));
    ConsumeConserves(lots, Ordered(lots, tm), quantity, sellDate);
    ConsumeKeepsShape(lots, Ordered(lots, tm), quantity, sellDate);
  }

  /** FIFO sells nothing newer, LIFO nothing older, than what is left; equal dates included. */
  lemma NothingOutOfOrder(lots: seq<Lot>, tm: TaxMethod, quantity: int, sellDate: int, k: nat, i: nat)
    requires DistinctIds(lots) && AllPositive(lots)
    requires k < |ConsumeLots(lots, tm, quantity, sellDate).taken| && i < |ConsumeLots(lots, tm, quantity, sellDate).lots|
    ensures var sold, left := ConsumeLots(lots, tm, quantity, sellDate).taken[k], ConsumeLots(lots, tm, quantity, sellDate).lots[i];
            && (tm.Fifo? ==> sold.date <= left.date)
            && (tm.Lifo? ==> sold.date >= left.date)
  {
    OrderedFacts(lots, tm);
    PermutationIsQueued(lots, Ordered(lots, tm));
    ConsumeRespectsOrder(tm, lots, Ordered(lots, tm), quantity, sellDate, k, i);
  }

  /** The k-th record takes what the lots before it in order could not supply. */
  lemma {:induction false} TakenIsWaterfall(lots: seq<Lot>, queue: seq<Lot>, quantity: int, sellDate: int, k: nat)
    requires AllPositive(queue) && k < |Consume(lots, queue, quantity, sellDate).taken|
    ensures k < |queue| && 0 < quantity - Qty(queue[..k])
    ensures Consume(lots, queue, quantity, sellDate).taken[k]
            == TakeFrom(queue[k], Min(queue[k].quantity, quantity - Qty(queue[..k])), sellDate)
    decreases queue
  {
    if quantity > 0 && queue != [] {
      var amount := Min(quantity, queue[0].quantity);
      if k > 0 {
        TakenIsWaterfall(Deduct(lots, queue[0].id, amount), queue[1..], quantity - amount, sellDate, k - 1);
        assert queue[..k][1..] == queue[1..][..k - 1];
      }
    }
  }

  function Max0(x: real): real { if x > 0.0 then x else 0.0 }
}
