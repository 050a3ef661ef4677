/**
 Wash-sale adjustments over whole runs (engine/core/portfolio.py): how much of a
 loss one buy takes over, and how often the same loss is taken over.
 */
module WashSales {
  import opened Wrappers
  import opened TaxLots
  import opened Ledger

  // ----- one buy

  /** The recorded losses of `symbol` in the window before `date`. */
  function WindowLosses(sells: seq<SellRecord>, symbol: string, date: int, days: int): real {
    if sells == [] then 0.0
    else (if IsWashed(sells[0], symbol, date, days) then Abs(sells[0].gain) else 0.0)
         + WindowLosses(sells[1..], symbol, date, days)
  }

  lemma DisallowedBounds(s: SellRecord, quantity: int)
    requires s.quantity > 0 && quantity > 0
    ensures 0.0 <= Disallowed(s, quantity) <= Abs(s.gain)
    ensures s.gain != 0.0 ==> (Disallowed(s, quantity) == Abs(s.gain) <==> quantity >= s.quantity)
  {
    var n, q, loss := Min(quantity, s.quantity) as real, s.quantity as real, Abs(s.gain);
    var unit := loss / q;
    assert q * unit == loss;
    assert unit >= 0.0 && (loss > 0.0 ==> unit > 0.0);
    assert q * unit - n * unit == (q - n) * unit;
    assert (q - n) * unit >= 0.0;
    assert unit > 0.0 && q > n ==> (q - n) * unit > 0.0;
  }

  /** A buy never takes over more than the losses in its window, and all of them if it covers every one of those sells. */
  lemma {:induction false} WashWithinLosses(sells: seq<SellRecord>, symbol: string, quantity: int, date: int, days: int)
    requires SellsPositive(sells) && quantity > 0
    ensures 0.0 <= WashTotal(sells, symbol, quantity, date, days) <= WindowLosses(sells, symbol, date, days)
    ensures WashTotal(sells, symbol, quantity, date, days) == WindowLosses(sells, symbol, date, days) <==>
            forall i :: 0 <= i < |sells| && IsWashed(sells[i], symbol, date, days) ==> sells[i].quantity <= quantity
  {
    if sells != [] {
      hide Disallowed, Abs;
      WashWithinLosses(sells[1..], symbol, quantity, date, days);
      DisallowedBounds(sells[0], quantity);
      AllFromHead(sells, symbol, quantity, date, days);
    }
  }

  lemma AllFromHead(sells: seq<SellRecord>, symbol: string, quantity: int, date: int, days: int)
    requires sells != []
    ensures (forall i :: 0 <= i < |sells| && IsWashed(sells[i], symbol, date, days) ==> sells[i].quantity <= quantity) <==>
            (IsWashed(sells[0], symbol, date, days) ==> sells[0].quantity <= quantity)
            && forall i :: 0 <= i < |sells[1..]| && IsWashed(sells[1..][i], symbol, date, days) ==> sells[1..][i].quantity <= quantity
  {
    assert forall i :: 0 < i < |sells| ==> sells[i] == sells[1..][i - 1];
  }

  // ----- one loss, any number of buys

  function Shares(qs: seq<int>): int {
    if qs == [] then 0 else Shares(qs[..|qs| - 1]) + qs[|qs| - 1]
  }

  /** What buys of these quantities take over of one loss. */
  function TakenOver(s: SellRecord, qs: seq<int>): real
    requires s.quantity > 0
  {
    if qs == [] then 0.0 else TakenOver(s, qs[..|qs| - 1]) + Disallowed(s, qs[|qs| - 1])
  }

  /** The shares for which they take it over: each buy at most the shares sold. */
  function Capped(n: int, qs: seq<int>): int {
    if qs == [] then 0 else Capped(n, qs[..|qs| - 1]) + Min(qs[|qs| - 1], n)
  }

  ghost predicate Positive(qs: seq<int>) {
    forall i :: 0 <= i < |qs| ==> qs[i] > 0
  }

  lemma {:induction false} CappedBounds(n: int, qs: seq<int>)
    requires n > 0 && Positive(qs)
    ensures |qs| <= Capped(n, qs) <= Shares(qs)
    ensures Capped(n, qs) < n ==> Capped(n, qs) == Shares(qs)
  {
    if qs != [] {
      CappedBounds(n, qs[..|qs| - 1]);
    }
  }

  /** The capped shares stay within the shares sold exactly for a single buy, or buys of no more than that together. */
  lemma CappedWithinIff(n: int, qs: seq<int>)
    requires n > 0 && Positive(qs)
    ensures Capped(n, qs) <= n <==> |qs| <= 1 || Shares(qs) <= n
  {
    CappedBounds(n, qs);
    if |qs| > 0 {
      CappedBounds(n, qs[..|qs| - 1]);
    }
    if |qs| == 1 {
      assert Capped(n, qs[..0]) == 0;
    }
  }

  lemma {:induction false} TakenOverIsCapped(s: SellRecord, qs: seq<int>)
    requires s.quantity > 0
    ensures TakenOver(s, qs) == Cost(Capped(s.quantity, qs), Abs(s.gain) / s.quantity as real)
  {
    var unit := Abs(s.gain) / s.quantity as real;
    if qs != [] {
      TakenOverIsCapped(s, qs[..|qs| - 1]);
      CostAdds(Capped(s.quantity, qs[..|qs| - 1]), Min(qs[|qs| - 1], s.quantity), unit);
    }
  }

  lemma CostAdds(a: int, b: int, p: real)
    ensures Cost(a + b, p) == Cost(a, p) + Cost(b, p)
  {
    assert (a + b) as real == a as real + b as real;
  }

  lemma CostOrder(a: int, n: int, p: real)
    requires p > 0.0
    ensures Cost(a, p) <= Cost(n, p) <==> a <= n
  {
    if a <= n {
      assert (n as real - a as real) * p >= 0.0;
    } else {
      assert (a as real - n as real) * p > 0.0;
    }
  }

  lemma UnitLoss(s: SellRecord)
    requires s.quantity > 0 && s.gain < 0.0
    ensures Abs(s.gain) / s.quantity as real > 0.0
    ensures Cost(s.quantity, Abs(s.gain) / s.quantity as real) == Abs(s.gain)
  {}

  /** Any buys in the window of a loss take over no more than it exactly if there is one, or together they buy no more than was sold. */
  lemma TakenOverOnceIff(s: SellRecord, qs: seq<int>)
    requires s.quantity > 0 && s.gain < 0.0 && Positive(qs)
    ensures TakenOver(s, qs) <= Abs(s.gain) <==> |qs| <= 1 || Shares(qs) <= s.quantity
  {
    hide Cost;
    var unit := Abs(s.gain) / s.quantity as real;
    TakenOverIsCapped(s, qs);
    UnitLoss(s);
    CostOrder(Capped(s.quantity, qs), s.quantity, unit);
    CappedWithinIff(s.quantity, qs);
  }

  // ----- over whole runs

  ghost predicate Buys(b: Book, op: Op)
    requires Consistent(b) && PositiveQuantity(op)
  {
    op.OpBuy? && Step(b, op) != b
  }

  /** The quantities of the buys of a run that took over part of its i-th sell. */
  ghost function Covering(cash: real, tm: TaxMethod, days: int, ops: seq<Op>, i: nat): (qs: seq<int>)
    requires forall k :: 0 <= k < |ops| ==> PositiveQuantity(ops[k])
    ensures Positive(qs)
    decreases ops
  {
    if ops == [] then []
    else
      var b, op := Run(cash, tm, days, ops[..|ops| - 1]).book, ops[|ops| - 1];
      var before := Covering(cash, tm, days, ops[..|ops| - 1], i);
      if Buys(b, op) && i < |b.sells| && IsWashed(b.sells[i], op.symbol, op.date, b.washDays)
      then before + [op.quantity]
      else before
  }

  lemma RunIsConsistent(cash: real, tm: TaxMethod, days: int, ops: seq<Op>)
    requires forall k :: 0 <= k < |ops| ==> PositiveQuantity(ops[k])
    ensures Consistent(Run(cash, tm, days, ops).book) && SellsPositive(Run(cash, tm, days, ops).book.sells)
  {}

  /** In every run a recorded loss is taken over at most once exactly if at most one buy falls in its window, or they buy no more than was sold. */
  lemma RunTakesOverOnceIff(cash: real, tm: TaxMethod, days: int, ops: seq<Op>, i: nat)
    requires forall k :: 0 <= k < |ops| ==> PositiveQuantity(ops[k])
    requires i < |Run(cash, tm, days, ops).book.sells| && Run(cash, tm, days, ops).book.sells[i].gain < 0.0
    ensures var s, qs := Run(cash, tm, days, ops).book.sells[i], Covering(cash, tm, days, ops, i);
            s.quantity > 0 && (TakenOver(s, qs) <= Abs(s.gain) <==> |qs| <= 1 || Shares(qs) <= s.quantity)
  {
    hide Run, TakenOver, Shares, Covering;
    RunIsConsistent(cash, tm, days, ops);
    TakenOverOnceIff(Run(cash, tm, days, ops).book.sells[i], Covering(cash, tm, days, ops, i));
  }

  // ----- all that a run adds is taken over from its losses

  /** What buys have taken over of the first n sells. */
  ghost function AllTakenOver(sells: seq<SellRecord>, n: nat, covering: nat -> seq<int>): real
    requires n <= |sells| && SellsPositive(sells)
  {
    if n == 0 then 0.0 else AllTakenOver(sells, n - 1, covering) + TakenOver(sells[n - 1], covering(n - 1))
  }

  ghost function CoveringOf(cash: real, tm: TaxMethod, days: int, ops: seq<Op>): nat -> seq<int>
    requires forall k :: 0 <= k < |ops| ==> PositiveQuantity(ops[k])
  {
    (i: nat) => Covering(cash, tm, days, ops, i)
  }

  lemma {:induction false} SameCovering(sells: seq<SellRecord>, more: seq<SellRecord>, n: nat, c: nat -> seq<int>, d: nat -> seq<int>)
    requires n <= |sells| <= |more| && SellsPositive(sells) && SellsPositive(more) && more[..|sells|] == sells
    requires forall i :: 0 <= i < n ==> c(i) == d(i)
    ensures AllTakenOver(sells, n, c) == AllTakenOver(more, n, d)
  {
    if n > 0 {
      SameCovering(sells, more, n - 1, c, d);
      assert more[n - 1] == more[..|sells|][n - 1];
    }
  }

  /** One more buy adds the disallowed part of every loss in its window. */
  lemma {:induction false} BuyAddsWash(sells: seq<SellRecord>, n: nat, c: nat -> seq<int>, d: nat -> seq<int>,
                                       symbol: string, quantity: int, date: int, days: int)
    requires n <= |sells| && SellsPositive(sells)
    requires forall i :: 0 <= i < n ==> d(i) == if IsWashed(sells[i], symbol, date, days) then c(i) + [quantity] else c(i)
    ensures SellsPositive(sells[..n])
    ensures AllTakenOver(sells, n, d) == AllTakenOver(sells, n, c) + WashTotal(sells[..n], symbol, quantity, date, days)
  {
    if n > 0 {
      hide Disallowed;
      BuyAddsWash(sells, n - 1, c, d, symbol, quantity, date, days);
      assert sells[..n] == sells[..n - 1] + [sells[n - 1]];
      WashAppend(sells[..n - 1], sells[n - 1], symbol, quantity, date, days);
      if IsWashed(sells[n - 1], symbol, date, days) {
        assert d(n - 1)[..|c(n - 1)|] == c(n - 1);
      }
    }
  }

  lemma {:induction false} WashAppend(sells: seq<SellRecord>, s: SellRecord, symbol: string, quantity: int, date: int, days: int)
    requires SellsPositive(sells) && s.quantity > 0
    ensures SellsPositive(sells + [s])
    ensures WashTotal(sells + [s], symbol, quantity, date, days)
            == WashTotal(sells, symbol, quantity, date, days) + (if IsWashed(s, symbol, date, days) then Disallowed(s, quantity) else 0.0)
  {
    hide Disallowed, IsWashed;
    if sells == [] {
      assert sells + [s] == [s] && [s][1..] == [];
    } else {
      assert (sells + [s])[1..] == sells[1..] + [s];
      WashAppend(sells[1..], s, symbol, quantity, date, days);
    }
  }

  /** What one call does to the sell history. */
  lemma StepSells(b: Book, op: Op)
    requires Consistent(b) && PositiveQuantity(op)
    ensures Step(b, op).sells == b.sells
            || (!Buys(b, op) && |Step(b, op).sells| == |b.sells| + 1 && Step(b, op).sells[..|b.sells|] == b.sells)
    ensures Buys(b, op) ==> Step(b, op).sells == b.sells
  {
    if op.OpSell? && Sell(b, op.symbol, op.quantity, op.price, op.cost, op.tax, op.date).Ok? {
      var s := Sell(b, op.symbol, op.quantity, op.price, op.cost, op.tax, op.date).value.0.sells;
      assert s[..|b.sells|] == b.sells;
    }
  }

  lemma {:induction false} NothingCoversLaterSells(cash: real, tm: TaxMethod, days: int, ops: seq<Op>, i: nat)
    requires forall k :: 0 <= k < |ops| ==> PositiveQuantity(ops[k])
    requires i >= |Run(cash, tm, days, ops).book.sells|
    ensures Covering(cash, tm, days, ops, i) == []
    decreases ops
  {
    if ops != [] {
      hide Step, IsWashed;
      StepSells(Run(cash, tm, days, ops[..|ops| - 1]).book, ops[|ops| - 1]);
      NothingCoversLaterSells(cash, tm, days, ops[..|ops| - 1], i);
    }
  }

  lemma AddedByBuy(b: Book, op: Op)
    requires Consistent(b) && PositiveQuantity(op)
    ensures Buys(b, op) ==> WashAdded(b, op) == WashTotal(b.sells, op.symbol, op.quantity, op.date, b.washDays)
    ensures !Buys(b, op) ==> WashAdded(b, op) == 0.0
  {
    if Buys(b, op) {
      WashWithinLosses(b.sells, op.symbol, op.quantity, op.date, b.washDays);
    }
  }

  /** The wash-sale total of a run is what its buys took over of its losses, buy by buy and loss by loss. */
  lemma {:induction false} RunWashIsTakenOver(cash: real, tm: TaxMethod, days: int, ops: seq<Op>)
    requires forall k :: 0 <= k < |ops| ==> PositiveQuantity(ops[k])
    ensures var a := Run(cash, tm, days, ops);
            a.wash == AllTakenOver(a.book.sells, |a.book.sells|, CoveringOf(cash, tm, days, ops))
    decreases ops
  {
    if ops != [] {
      RunWashIsTakenOver(cash, tm, days, ops[..|ops| - 1]);
      RunWashStep(cash, tm, days, ops);
    }
  }

  lemma RunUnfolds(cash: real, tm: TaxMethod, days: int, ops: seq<Op>)
    requires ops != [] && forall k :: 0 <= k < |ops| ==> PositiveQuantity(ops[k])
    ensures var before, op := Run(cash, tm, days, ops[..|ops| - 1]), ops[|ops| - 1];
            && Run(cash, tm, days, ops).book == Step(before.book, op)
            && Run(cash, tm, days, ops).wash == before.wash + WashAdded(before.book, op)
  {
    hide Step, WashAdded;
  }

  lemma CoveringUnfolds(cash: real, tm: TaxMethod, days: int, ops: seq<Op>, i: nat)
    requires ops != [] && forall k :: 0 <= k < |ops| ==> PositiveQuantity(ops[k])
    ensures var b, op := Run(cash, tm, days, ops[..|ops| - 1]).book, ops[|ops| - 1];
            Covering(cash, tm, days, ops, i)
            == Covering(cash, tm, days, ops[..|ops| - 1], i)
               + (if Buys(b, op) && i < |b.sells| && IsWashed(b.sells[i], op.symbol, op.date, b.washDays) then [op.quantity] else [])
  {
    hide Step, Run, IsWashed;
  }

  lemma RunWashStep(cash: real, tm: TaxMethod, days: int, ops: seq<Op>)
    requires ops != [] && forall k :: 0 <= k < |ops| ==> PositiveQuantity(ops[k])
    requires var a := Run(cash, tm, days, ops[..|ops| - 1]);
             a.wash == AllTakenOver(a.book.sells, |a.book.sells|, CoveringOf(cash, tm, days, ops[..|ops| - 1]))
    ensures var a := Run(cash, tm, days, ops);
            a.wash == AllTakenOver(a.book.sells, |a.book.sells|, CoveringOf(cash, tm, days, ops))
  {
    hide Run, Covering, Step, IsWashed, WashTotal, WashAdded, TakenOver, Consistent;
    var init, op := ops[..|ops| - 1], ops[|ops| - 1];
    var b := Run(cash, tm, days, init).book;
    var c, d := CoveringOf(cash, tm, days, init), CoveringOf(cash, tm, days, ops);
    RunUnfolds(cash, tm, days, ops);
    AddedByBuy(b, op);
    StepSells(b, op);
    forall i: nat
      ensures d(i) == c(i) + (if Buys(b, op) && i < |b.sells| && IsWashed(b.sells[i], op.symbol, op.date, b.washDays) then [op.quantity] else [])
    {
      CoveringUnfolds(cash, tm, days, ops, i);
    }
    if Buys(b, op) {
      WashIsAdded(b, op, c, d);
    } else {
      NothingIsAdded(b, op, c, d);
      NothingCoversLaterSells(cash, tm, days, init, |b.sells|);
    }
  }

  lemma WashIsAdded(b: Book, op: Op, c: nat -> seq<int>, d: nat -> seq<int>)
    requires Consistent(b) && PositiveQuantity(op) && Buys(b, op)
    requires forall i: nat :: d(i) == c(i) + (if i < |b.sells| && IsWashed(b.sells[i], op.symbol, op.date, b.washDays) then [op.quantity] else [])
    ensures AllTakenOver(b.sells, |b.sells|, d) == AllTakenOver(b.sells, |b.sells|, c) + WashAdded(b, op)
  {
    hide Step, IsWashed, WashTotal, WashAdded, TakenOver;
    AddedByBuy(b, op);
    BuyAddsWash(b.sells, |b.sells|, c, d, op.symbol, op.quantity, op.date, b.washDays);
    assert b.sells[..|b.sells|] == b.sells;
  }

  lemma NothingIsAdded(b: Book, op: Op, c: nat -> seq<int>, d: nat -> seq<int>)
    requires Consistent(b) && PositiveQuantity(op) && !Buys(b, op) && forall i: nat :: d(i) == c(i)
    ensures Consistent(Step(b, op)) && |Step(b, op).sells| >= |b.sells|
    ensures AllTakenOver(Step(b, op).sells, |b.sells|, d) == AllTakenOver(b.sells, |b.sells|, c)
    ensures |Step(b, op).sells| == |b.sells| + 1 && c(|b.sells|) == [] ==>
              AllTakenOver(Step(b, op).sells, |b.sells| + 1, d) == AllTakenOver(b.sells, |b.sells|, c)
  {
    hide Step, IsWashed, TakenOver;
    StepConsistent(b, op);
    StepSells(b, op);
    SameCovering(b.sells, Step(b, op).sells, |b.sells|, c, d);
    if |Step(b, op).sells| == |b.sells| + 1 {
      NothingTakenOver(Step(b, op).sells[|b.sells|]);
    }
  }

  lemma NothingTakenOver(s: SellRecord)
    requires s.quantity > 0
    ensures TakenOver(s, []) == 0.0
  {}

  // ----- a run that takes one loss over twice

  /** A book of one symbol with one loss of 50 on ten shares. */
  ghost predicate AfterLoss(b: Book, loss: SellRecord, cash: real) {
    && Consistent(b) && b.sells == [loss] && b.cash == cash && b.washDays == 30
    && loss == SellRecord("A", loss.date, 10, 5.0, 100.0, -50.0)
  }

  lemma BuyTen(b: Book, date: int)
    requires b == Opening(1000.0, Fifo, 30)
    ensures Consistent(b)
    ensures var b' := Step(b, OpBuy("A", 10, 10.0, 0.0, date));
            && Consistent(b') && b'.cash == 900.0 && b'.sells == [] && b'.washDays == 30 && b'.tm == Fifo
            && LotsOf(b', "A") == [Lot(0, 10.0, date, 10)] && "A" in b'.positions && b'.positions["A"].quantity == 10
  {
    assert Consistent(b);
    StepConsistent(b, OpBuy("A", 10, 10.0, 0.0, date));
  }

  lemma SellTen(b: Book, date: int)
    requires Consistent(b) && b.cash == 900.0 && b.sells == [] && b.washDays == 30 && b.tm == Fifo
    requires LotsOf(b, "A") == [Lot(0, 10.0, date, 10)] && "A" in b.positions && b.positions["A"].quantity == 10
    ensures AfterLoss(Step(b, OpSell("A", 10, 5.0, 0.0, 0.0, date)), SellRecord("A", date, 10, 5.0, 100.0, -50.0), 950.0)
  {
    StepConsistent(b, OpSell("A", 10, 5.0, 0.0, 0.0, date));
    var lots := LotsOf(b, "A");
    SaleFacts(lots, Fifo, 10, date);
    assert lots[1..] == [];
    QtyNonNegative(ConsumeLots(lots, Fifo, 10, date).lots);
    assert ConsumeLots(lots, Fifo, 10, date).lots == [];
    assert TakenBasis(ConsumeLots(lots, Fifo, 10, date).taken) == 100.0;
  }

  lemma BuyAfterLoss(b: Book, loss: SellRecord, cash: real)
    requires AfterLoss(b, loss, cash) && cash >= 50.0
    ensures var op := OpBuy("A", 10, 5.0, 0.0, loss.date);
            && Buys(b, op) && IsWashed(loss, "A", loss.date, 30) && AfterLoss(Step(b, op), loss, cash - 50.0)
  {
    var op := OpBuy("A", 10, 5.0, 0.0, loss.date);
    StepConsistent(b, op);
    assert SymbolConsistent(b, "A");
    if "A" in b.positions { HeldIsPositive(b, "A"); }
    assert Step(b, op).nextId != b.nextId;
  }

  /** Buy ten at 10, sell them at 5, and buy ten twice: the loss of 50 is taken over twice. */
  lemma OneLossIsTakenOverTwice(date: int)
    ensures var buy := OpBuy("A", 10, 5.0, 0.0, date);
            var ops := [OpBuy("A", 10, 10.0, 0.0, date), OpSell("A", 10, 5.0, 0.0, 0.0, date), buy, buy];
            var b := Run(1000.0, Fifo, 30, ops).book;
            && b.sells == [SellRecord("A", date, 10, 5.0, 100.0, -50.0)]
            && Covering(1000.0, Fifo, 30, ops, 0) == [10, 10]
            && TakenOver(b.sells[0], [10, 10]) == 100.0
  {
    hide Step, IsWashed, Buys, TakenOver;
    var loss := SellRecord("A", date, 10, 5.0, 100.0, -50.0);
    var first, sell, buy := OpBuy("A", 10, 10.0, 0.0, date), OpSell("A", 10, 5.0, 0.0, 0.0, date), OpBuy("A", 10, 5.0, 0.0, date);
    var all := [first, sell, buy, buy];
    assert all[..3] == [first, sell, buy] && [first, sell, buy][..2] == [first, sell];
    assert [first, sell][..1] == [first] && [first][..0] == [];
    BuyTen(Run(1000.0, Fifo, 30, []).book, date);
    SellTen(Run(1000.0, Fifo, 30, [first]).book, date);
    BuyAfterLoss(Run(1000.0, Fifo, 30, [first, sell]).book, loss, 950.0);
    BuyAfterLoss(Run(1000.0, Fifo, 30, [first, sell, buy]).book, loss, 900.0);
    NothingCoversLaterSells(1000.0, Fifo, 30, [first], 0);
    CoveringUnfolds(1000.0, Fifo, 30, [first, sell], 0);
    CoveringUnfolds(1000.0, Fifo, 30, [first, sell, buy], 0);
    CoveringUnfolds(1000.0, Fifo, 30, all, 0);
    TenTwice(loss);
  }

  lemma TenTwice(loss: SellRecord)
    requires loss == SellRecord("A", loss.date, 10, 5.0, 100.0, -50.0)
    ensures TakenOver(loss, [10, 10]) == 100.0
  {
    assert [10, 10][..1] == [10] && [10][..0] == [];
    assert Disallowed(loss, 10) == 50.0;
    assert TakenOver(loss, [10]) == TakenOver(loss, [10][..0]) + 50.0;
  }
}
