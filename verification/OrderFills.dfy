/**
 How much an order is filled over its whole life (engine/core/order_manager.py),
 when the backend is handed the whole order at every attempt; and what is left
 behind when the portfolio refuses a fill that the order has taken.
 */
module OrderFills {
  import opened Wrappers
  import opened TaxLots
  import opened Ledger
  import opened Orders

  // ----- fills that fit the remainder

  /** The next execution, if it succeeds, is for no more than the order still lacks. */
  predicate Fits(w: World, d: Desk) {
    w.execute(d.executions).success ==> w.execute(d.executions).quantity <= d.order.quantity - FilledSoFar(d.order)
  }

  /** So is every execution of a continuation. */
  ghost predicate ContinueFits(w: World, d: Desk, price: real, left: nat, date: int)
    requires Consistent(d.book) && FillsPositive(w)
    decreases left
  {
    var remaining := d.order.quantity - FilledSoFar(d.order);
    !d.order.status.PartiallyFilled? || left == 0 || remaining <= 0 || (
      && Fits(w, d)
      && var r := Attempt(w, d, w.costOf(remaining, price), date);
         AttemptKeepsBook(w, d, w.costOf(remaining, price), date);
         r.1.None? ==> ContinueFits(w, r.0, price, left - 1, date))
  }

  /** And every execution of a life. */
  ghost predicate LifeFits(w: World, b: Book, s: Signal, price: real, date: int, calls: seq<Call>)
    requires Consistent(b) && FillsPositive(w) && forall i :: 0 <= i < |calls| ==> FillsPositive(calls[i].w)
    decreases calls
  {
    if calls == [] then
      Process(w, b, s, price, date).0.executions > 0 ==> Fits(w, Desk(New(s.symbol, s.side, QuantityOf(b, s, price)), b, 0))
    else
      var before, c := Life(w, b, s, price, date, calls[..|calls| - 1]), calls[|calls| - 1];
      && LifeFits(w, b, s, price, date, calls[..|calls| - 1])
      && (before.Some? ==> ContinueFits(c.w, before.value, PriceOf(before.value.order, c.price), Cap(c.maxRetries), c.date))
  }

  /** Never more than ordered, and FILLED at exactly that. */
  ghost predicate Exact(o: Order) {
    o.quantity > 0 ==> FilledSoFar(o) <= o.quantity && (o.status.Filled? <==> FilledSoFar(o) == o.quantity)
  }

  /** More than ordered, for good. */
  ghost predicate Overfilled(o: Order) {
    o.quantity > 0 && o.status.Filled? && FilledSoFar(o) > o.quantity
  }

  ghost predicate ExactIff(o: Order, fits: bool) {
    if fits then Exact(o) else Overfilled(o)
  }

  lemma AttemptExactIff(w: World, d: Desk, costs: Costs, date: int)
    requires Consistent(d.book) && FillsPositive(w) && Sound(d.order) && 0 <= FilledSoFar(d.order) < d.order.quantity
    ensures ExactIff(Attempt(w, d, costs, date).0.order, Fits(w, d))
  {
    var f := w.execute(d.executions);
    if f.success {
      AbsorbAccounts(d.order, Fill(f.price, f.quantity));
    }
  }

  lemma {:induction false} ContinueExactIff(w: World, d: Desk, price: real, left: nat, date: int)
    requires Consistent(d.book) && FillsPositive(w) && Sound(d.order) && d.order.status.PartiallyFilled?
    requires Continue(w, d, price, left, date).1.None?
    ensures ExactIff(Continue(w, d, price, left, date).0.order, ContinueFits(w, d, price, left, date))
    decreases left
  {
    if left > 0 {
      hide Sound, Attempt;
      SoundMeans(d.order);
      var costs := w.costOf(d.order.quantity - FilledSoFar(d.order), price);
      var mid := Attempt(w, d, costs, date).0;
      AttemptExactIff(w, d, costs, date);
      AttemptProgresses(w, d, costs, date);
      if mid.order.status.PartiallyFilled? {
        ContinueExactIff(w, mid, price, left - 1, date);
      }
    } else {
      SoundMeans(d.order);
    }
  }

  lemma SoundMeans(o: Order)
    requires Sound(o) && o.status.PartiallyFilled?
    ensures 0 < FilledSoFar(o) < o.quantity
  {}

  lemma ProcessExactIff(w: World, b: Book, s: Signal, price: real, date: int)
    requires Consistent(b) && FillsPositive(w) && Process(w, b, s, price, date).1.None?
    ensures ExactIff(Process(w, b, s, price, date).0.order, LifeFits(w, b, s, price, date, []))
  {
    var d := Desk(New(s.symbol, s.side, QuantityOf(b, s, price)), b, 0);
    NewSound(s.symbol, s.side, QuantityOf(b, s, price));
    if Process(w, b, s, price, date).0.executions > 0 {
      var approved := UpToApproval(d);
      MoveProgresses(approved, Submitted);
      AttemptExactIff(w, approved.(order := MoveTo(approved.order, Submitted)), w.costOf(d.order.quantity, price), date);
    }
  }

  /** A life ends with no more than was ordered, and FILLED at exactly that, if every fill fitted; otherwise it ends overfilled. */
  lemma {:induction false} LifeExactIff(w: World, b: Book, s: Signal, price: real, date: int, calls: seq<Call>)
    requires Consistent(b) && FillsPositive(w) && forall i :: 0 <= i < |calls| ==> FillsPositive(calls[i].w)
    requires Life(w, b, s, price, date, calls).Some?
    ensures ExactIff(Life(w, b, s, price, date, calls).value.order, LifeFits(w, b, s, price, date, calls))
    decreases calls
  {
    hide Process, Continue, ContinueFits, Sound;
    if calls == [] {
      ProcessExactIff(w, b, s, price, date);
    } else {
      var init, c := calls[..|calls| - 1], calls[|calls| - 1];
      LifeExactIff(w, b, s, price, date, init);
      var before := Life(w, b, s, price, date, init).value;
      ContinueExactIff(c.w, before, PriceOf(before.order, c.price), Cap(c.maxRetries), c.date);
    }
  }

  /** After any life the order holds at most what was ordered exactly if every fill was within the remainder at its time. */
  lemma FillsExactlyIff(w: World, b: Book, s: Signal, price: real, date: int, calls: seq<Call>)
    requires Consistent(b) && FillsPositive(w) && forall i :: 0 <= i < |calls| ==> FillsPositive(calls[i].w)
    requires Life(w, b, s, price, date, calls).Some?
    ensures var o := Life(w, b, s, price, date, calls).value.order;
            o.quantity > 0 ==>
              && (FilledSoFar(o) <= o.quantity <==> LifeFits(w, b, s, price, date, calls))
              && (LifeFits(w, b, s, price, date, calls) ==> (o.status.Filled? <==> FilledSoFar(o) == o.quantity))
  {
    hide LifeFits, Life;
    LifeExactIff(w, b, s, price, date, calls);
  }

  // ----- backends that fill a share of the whole order

  /** Every successful fill is for at most q shares, as when a share of an order of q shares is filled. */
  ghost predicate FillsAtMost(w: World, q: int) {
    forall n: nat :: w.execute(n).success ==> w.execute(n).quantity <= q
  }

  lemma AttemptBelowTwice(w: World, d: Desk, costs: Costs, date: int)
    requires Consistent(d.book) && FillsPositive(w) && FillsAtMost(w, d.order.quantity)
    requires 0 <= FilledSoFar(d.order) < d.order.quantity
    ensures FilledSoFar(Attempt(w, d, costs, date).0.order) < 2 * d.order.quantity
  {}

  lemma {:induction false} ContinueBelowTwice(w: World, d: Desk, price: real, left: nat, date: int)
    requires Consistent(d.book) && FillsPositive(w) && FillsAtMost(w, d.order.quantity)
    requires Sound(d.order) && d.order.status.PartiallyFilled? && Continue(w, d, price, left, date).1.None?
    ensures FilledSoFar(Continue(w, d, price, left, date).0.order) < 2 * d.order.quantity
    decreases left
  {
    SoundMeans(d.order);
    if left > 0 {
      hide Sound, Attempt;
      var costs := w.costOf(d.order.quantity - FilledSoFar(d.order), price);
      var mid := Attempt(w, d, costs, date).0;
      AttemptBelowTwice(w, d, costs, date);
      AttemptProgresses(w, d, costs, date);
      if mid.order.status.PartiallyFilled? {
        ContinueBelowTwice(w, mid, price, left - 1, date);
      }
    }
  }

  /** With such backends an order may be overfilled, but no life reaches twice the quantity. */
  lemma {:induction false} NeverTwiceTheQuantity(w: World, b: Book, s: Signal, price: real, date: int, calls: seq<Call>)
    requires Consistent(b) && FillsPositive(w) && forall i :: 0 <= i < |calls| ==> FillsPositive(calls[i].w)
    requires FillsAtMost(w, QuantityOf(b, s, price))
    requires forall i :: 0 <= i < |calls| ==> FillsAtMost(calls[i].w, QuantityOf(b, s, price))
    requires Life(w, b, s, price, date, calls).Some?
    ensures var o := Life(w, b, s, price, date, calls).value.order;
            o.quantity == QuantityOf(b, s, price) && (o.quantity > 0 ==> FilledSoFar(o) < 2 * o.quantity)
    decreases calls
  {
    hide Sound, Continue;
    if calls == [] {
      ProcessBelowTwice(w, b, s, price, date);
    } else {
      var init, c := calls[..|calls| - 1], calls[|calls| - 1];
      NeverTwiceTheQuantity(w, b, s, price, date, init);
      var before := Life(w, b, s, price, date, init).value;
      ContinueCallProgresses(before, c);
      ContinueBelowTwice(c.w, before, PriceOf(before.order, c.price), Cap(c.maxRetries), c.date);
    }
  }

  lemma ProcessBelowTwice(w: World, b: Book, s: Signal, price: real, date: int)
    requires Consistent(b) && FillsPositive(w) && FillsAtMost(w, QuantityOf(b, s, price))
    requires Process(w, b, s, price, date).1.None?
    ensures var o := Process(w, b, s, price, date).0.order;
            o.quantity == QuantityOf(b, s, price) && (o.quantity > 0 ==> FilledSoFar(o) < 2 * o.quantity)
  {
    ProcessProgresses(w, b, s, price, date);
  }

  /** A fill of the whole order overfills every partially filled order. */
  lemma WholeOrderFillOverfills(o: Order, price: real)
    requires Sound(o) && o.status.PartiallyFilled?
    ensures Overfilled(Absorb(o, Fill(price, o.quantity)))
    ensures FilledSoFar(Absorb(o, Fill(price, o.quantity))) == o.quantity + FilledSoFar(o)
  {
    AbsorbAccounts(o, Fill(price, o.quantity));
  }

  // ----- fills that the portfolio refused

  /** An order's desk, and the fills it took that the portfolio refused. */
  datatype Track = Track(desk: Desk, refused: seq<Fill>)

  /** Progress, except that the position did not move by `refused` shares. */
  ghost predicate ProgressBut(d: Desk, d': Desk, refused: int) {
    && Sound(d'.order) && Consistent(d'.book)
    && d'.order.symbol == d.order.symbol && d'.order.side == d.order.side && d'.order.quantity == d.order.quantity
    && Held(d'.book, d.order.symbol)
       == Held(d.book, d.order.symbol) + Signed(d.order.side, FilledSoFar(d'.order) - FilledSoFar(d.order) - refused)
    && (forall other :: other != d.order.symbol ==> Held(d'.book, other) == Held(d.book, other))
  }

  /** The fill an attempt that raised has left in the order. */
  function LastFill(o: Order): seq<Fill> {
    if o.fills == [] then [] else [o.fills[|o.fills| - 1]]
  }

  lemma AttemptProgressesBut(w: World, d: Desk, costs: Costs, date: int)
    requires Consistent(d.book) && FillsPositive(w) && Sound(d.order) && d.order.status.PartiallyFilled?
    ensures var r := Attempt(w, d, costs, date);
            ProgressBut(d, r.0, if r.1.None? then 0 else SumQty(LastFill(r.0.order)))
  {
    var f := w.execute(d.executions);
    if Attempt(w, d, costs, date).1.None? {
      AttemptProgresses(w, d, costs, date);
    } else {
      var fill := Fill(f.price, f.quantity);
      AbsorbSound(d.order, fill);
      AbsorbAccounts(d.order, fill);
      assert [fill][..0] == [];
      assert SumQty([fill]) == SumQty([fill][..0]) + f.quantity;
      assert LastFill(Absorb(d.order, fill)) == [fill];
    }
  }

  lemma ProgressButTransitive(a: Desk, b: Desk, c: Desk, m: int, n: int)
    requires ProgressBut(a, b, m) && ProgressBut(b, c, n)
    ensures ProgressBut(a, c, m + n)
  {}

  lemma {:induction false} ContinueProgressesBut(w: World, d: Desk, price: real, left: nat, date: int)
    requires Consistent(d.book) && FillsPositive(w) && Sound(d.order)
    ensures var r := Continue(w, d, price, left, date);
            ProgressBut(d, r.0, if r.1.None? then 0 else SumQty(LastFill(r.0.order)))
    decreases left
  {
    hide Continue, Attempt, ProgressBut, SumQty;
    var remaining := d.order.quantity - FilledSoFar(d.order);
    if d.order.status.PartiallyFilled? && left > 0 && remaining > 0 {
      var costs := w.costOf(remaining, price);
      ContinueTurns(w, d, price, left, date);
      AttemptProgressesBut(w, d, costs, date);
      var r := Attempt(w, d, costs, date);
      if r.1.None? {
        ProgressButMeans(d, r.0, 0);
        ContinueProgressesBut(w, r.0, price, left - 1, date);
        var last := Continue(w, r.0, price, left - 1, date);
        ProgressButTransitive(d, r.0, last.0, 0, if last.1.None? then 0 else SumQty(LastFill(last.0.order)));
      }
    } else {
      ContinueStops(w, d, price, left, date);
      NoProgress(d);
    }
  }

  lemma NoProgress(d: Desk)
    requires Consistent(d.book) && Sound(d.order)
    ensures ProgressBut(d, d, 0)
  {}

  lemma ProgressButMeans(d: Desk, d': Desk, n: int)
    requires ProgressBut(d, d', n)
    ensures Consistent(d'.book) && Sound(d'.order)
  {}

  /** continue_order whether or not the portfolio raises: a recorded order can be continued again. */
  ghost function ContinueOn(k: Track, c: Call): Track
    requires Consistent(k.desk.book) && FillsPositive(c.w)
  {
    if !k.desk.order.status.PartiallyFilled? || !c.w.hasBackend then k
    else
      var r := Continue(c.w, k.desk, PriceOf(k.desk.order, c.price), Cap(c.maxRetries), c.date);
      Track(r.0, if r.1.None? then k.refused else k.refused + LastFill(r.0.order))
  }

  /** A recorded order continued by any calls, those that raise included. */
  ghost function LifeOn(d: Desk, calls: seq<Call>): (k: Track)
    requires Consistent(d.book) && Sound(d.order) && forall i :: 0 <= i < |calls| ==> FillsPositive(calls[i].w)
    ensures Consistent(k.desk.book) && Sound(k.desk.order)
    decreases calls
  {
    if calls == [] then Track(d, [])
    else
      var before, c := LifeOn(d, calls[..|calls| - 1]), calls[|calls| - 1];
      ContinueOnKeeps(before, c);
      ContinueOn(before, c)
  }

  lemma ContinueOnKeeps(k: Track, c: Call)
    requires Consistent(k.desk.book) && Sound(k.desk.order) && FillsPositive(c.w)
    ensures Consistent(ContinueOn(k, c).desk.book) && Sound(ContinueOn(k, c).desk.order)
    ensures ProgressBut(k.desk, ContinueOn(k, c).desk, SumQty(ContinueOn(k, c).refused) - SumQty(k.refused))
  {
    ContinueProgressesBut(c.w, k.desk, PriceOf(k.desk.order, c.price), Cap(c.maxRetries), c.date);
    var after := ContinueOn(k, c);
    if after.refused != k.refused {
      RefusedAdds(k.refused, after.desk.order);
    }
  }

  lemma RefusedAdds(refused: seq<Fill>, o: Order)
    ensures SumQty(refused + LastFill(o)) == SumQty(refused) + SumQty(LastFill(o))
  {
    if o.fills != [] {
      assert (refused + LastFill(o))[..|refused|] == refused;
      assert LastFill(o)[..0] == [];
    } else {
      assert refused + LastFill(o) == refused;
    }
  }

  /** Through any continuations the position has moved by the order's fills less exactly those the portfolio refused. */
  lemma {:induction false} RefusedFillsAreTheDifference(d: Desk, calls: seq<Call>)
    requires Consistent(d.book) && Sound(d.order) && forall i :: 0 <= i < |calls| ==> FillsPositive(calls[i].w)
    ensures ProgressBut(d, LifeOn(d, calls).desk, SumQty(LifeOn(d, calls).refused))
    decreases calls
  {
    if calls != [] {
      hide ProgressBut, SumQty, ContinueOn;
      var init, c := calls[..|calls| - 1], calls[|calls| - 1];
      RefusedFillsAreTheDifference(d, init);
      var before, after := LifeOn(d, init), LifeOn(d, calls);
      ContinueOnKeeps(before, c);
      ProgressButTransitive(d, before.desk, after.desk, SumQty(before.refused), SumQty(after.refused) - SumQty(before.refused));
    }
  }
}
