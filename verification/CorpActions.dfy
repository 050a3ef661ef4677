/**
 Corporate-action back-adjustment, engine/core/corp_actions.py. Dates are day
 numbers, arithmetic is exact, and round() is Python's round-half-to-even.
 */
module CorpActions {
  import opened Wrappers
  import opened Products
  import opened Sorting

  datatype Kind = Split(ratio: real) | CashDividend(cash: real) | Spinoff(ratio: real)
                | StockMerger(ratio: real, survivor: string) | CashMerger(cash: real) | SymbolChange(newName: string)

  datatype Action = Action(symbol: string, effective: int, kind: Kind)

  /** What construction lets through. */
  predicate Accepted(k: Kind) {
    match k
    case Split(ratio) => ratio > 0.0
    case CashDividend(cash) => cash >= 0.0
    case Spinoff(ratio) => 0.0 < ratio <= 1.0
    case StockMerger(ratio, _) => ratio > 0.0
    case CashMerger(cash) => cash >= 0.0
    case SymbolChange(_) => true
  }

  /** A constructed action. */
  type Constructed = a: Action | Accepted(a.kind) witness Action("", 0, SymbolChange(""))

  type Log = seq<Constructed>

  // ----- one action

  function DividendFactor(close: Option<real>, cash: real): (f: real)
    ensures f > 0.0
  {
    if close.None? || close.value <= 0.0 then 1.0
    else if (close.value - cash) / close.value <= 0.0 then 1.0
    else (close.value - cash) / close.value
  }

  function PriceFactor(a: Constructed, close: Option<real>): (f: real)
    ensures f > 0.0
  {
    match a.kind
    case Split(ratio) => 1.0 / ratio
    case StockMerger(ratio, _) => 1.0 / ratio
    case Spinoff(ratio) => ratio
    case CashDividend(cash) => DividendFactor(close, cash)
    case _ => 1.0
  }

  function VolumeFactor(a: Constructed): (f: real)
    ensures f > 0.0
  {
    match a.kind
    case Split(ratio) => ratio
    case StockMerger(ratio, _) => ratio
    case _ => 1.0
  }

  /** What a holder gets apart from shares of the company: price movement that volume does not undo. */
  function PayoutFactor(a: Constructed, close: Option<real>): (f: real)
    ensures f > 0.0
  {
    match a.kind
    case Spinoff(ratio) => ratio
    case CashDividend(cash) => DividendFactor(close, cash)
    case _ => 1.0
  }

  predicate Applies(a: Action, symbol: string, bar: int, asOf: int) {
    a.symbol == symbol && bar < a.effective <= asOf
  }

  // ----- a whole log, in no particular order

  function PriceIn(symbol: string, bar: int, asOf: int, close: Option<real>): Constructed -> real {
    (a: Constructed) => if Applies(a, symbol, bar, asOf) then PriceFactor(a, close) else 1.0
  }

  function VolumeIn(symbol: string, bar: int, asOf: int): Constructed -> real {
    (a: Constructed) => if Applies(a, symbol, bar, asOf) then VolumeFactor(a) else 1.0
  }

  function PayoutIn(symbol: string, bar: int, asOf: int, close: Option<real>): Constructed -> real {
    (a: Constructed) => if Applies(a, symbol, bar, asOf) then PayoutFactor(a, close) else 1.0
  }

  /** The factor on prices of a bar seen as of a date: a product over the log. */
  function Factor(log: Log, symbol: string, bar: int, asOf: int, close: Option<real>): real {
    ProductOf(log, PriceIn(symbol, bar, asOf, close))
  }

  function Multiplier(log: Log, symbol: string, bar: int, asOf: int): real {
    ProductOf(log, VolumeIn(symbol, bar, asOf))
  }

  function Payout(log: Log, symbol: string, bar: int, asOf: int, close: Option<real>): real {
    ProductOf(log, PayoutIn(symbol, bar, asOf, close))
  }

  function Adjusted(log: Log, symbol: string, bar: int, asOf: int, close: Option<real>, price: real): real {
    Times(price, Factor(log, symbol, bar, asOf, close))
  }

  /** Adjusting to b and from there to c is adjusting to c. */
  lemma AdjustmentComposes(log: Log, symbol: string, bar: int, b: int, c: int, close: Option<real>, price: real)
    requires bar <= b <= c
    ensures Adjusted(log, symbol, bar, c, close, price)
            == Adjusted(log, symbol, b, c, close, Adjusted(log, symbol, bar, b, close, price))
    ensures Multiplier(log, symbol, bar, c) == Times(Multiplier(log, symbol, bar, b), Multiplier(log, symbol, b, c))
  {
    hide Times;
    forall a | a in log
      ensures PriceIn(symbol, bar, c, close)(a) == Times(PriceIn(symbol, bar, b, close)(a), PriceIn(symbol, b, c, close)(a))
      ensures VolumeIn(symbol, bar, c)(a) == Times(VolumeIn(symbol, bar, b)(a), VolumeIn(symbol, b, c)(a))
    {
      TimesOne(PriceFactor(a, close));
      TimesOne(VolumeFactor(a));
      TimesOne(1.0);
    }
    ProductOfTimes(log, PriceIn(symbol, bar, c, close), PriceIn(symbol, bar, b, close), PriceIn(symbol, b, c, close));
    ProductOfTimes(log, VolumeIn(symbol, bar, c), VolumeIn(symbol, bar, b), VolumeIn(symbol, b, c));
    TimesAssociates(price, Factor(log, symbol, bar, b, close), Factor(log, symbol, b, c, close));
  }

  /** The order in which actions were logged does not matter. */
  lemma InsertionOrderIrrelevant(log: Log, log': Log, symbol: string, bar: int, asOf: int, close: Option<real>)
    requires multiset(log) == multiset(log')
    ensures Factor(log, symbol, bar, asOf, close) == Factor(log', symbol, bar, asOf, close)
    ensures Multiplier(log, symbol, bar, asOf) == Multiplier(log', symbol, bar, asOf)
  {
    ProductPermutes(log, log', PriceIn(symbol, bar, asOf, close));
    ProductPermutes(log, log', VolumeIn(symbol, bar, asOf));
  }

  /** An action after the as-of date, or not after the bar, or of another symbol, changes nothing. */
  lemma OutsideWindowIsIgnored(log: Log, a: Constructed, symbol: string, bar: int, asOf: int, close: Option<real>)
    requires !Applies(a, symbol, bar, asOf)
    ensures Factor(log + [a], symbol, bar, asOf, close) == Factor(log, symbol, bar, asOf, close)
    ensures Multiplier(log + [a], symbol, bar, asOf) == Multiplier(log, symbol, bar, asOf)
  {
    var f, g := PriceIn(symbol, bar, asOf, close), VolumeIn(symbol, bar, asOf);
    ProductConcat(log, [a], f);
    ProductConcat(log, [a], g);
    assert ProductOf([a][1..], f) == 1.0 && ProductOf([a][1..], g) == 1.0;
    assert ProductOf([a], f) == 1.0 && ProductOf([a], g) == 1.0;
  }

  lemma FactorsMatch(a: Constructed, close: Option<real>)
    ensures Times(PriceFactor(a, close), VolumeFactor(a)) == PayoutFactor(a, close)
  {
    if a.kind.Split? || a.kind.StockMerger? {
      Inverse(a.kind.ratio);
    }
  }

  lemma Inverse(r: real)
    requires r != 0.0
    ensures 1.0 / r * r == 1.0
  {}

  /** Price factor times volume multiplier is exactly what dividends and spinoffs took out. */
  lemma ValueIdentity(log: Log, symbol: string, bar: int, asOf: int, close: Option<real>)
    ensures Times(Factor(log, symbol, bar, asOf, close), Multiplier(log, symbol, bar, asOf))
            == Payout(log, symbol, bar, asOf, close)
    ensures Factor(log, symbol, bar, asOf, close) > 0.0 && Multiplier(log, symbol, bar, asOf) > 0.0
  {
    hide Times;
    forall a | a in log
      ensures PayoutIn(symbol, bar, asOf, close)(a)
              == Times(PriceIn(symbol, bar, asOf, close)(a), VolumeIn(symbol, bar, asOf)(a))
    {
      FactorsMatch(a, close);
      TimesOne(1.0);
    }
    ProductOfTimes(log, PayoutIn(symbol, bar, asOf, close), PriceIn(symbol, bar, asOf, close), VolumeIn(symbol, bar, asOf));
    ProductPositive(log, PriceIn(symbol, bar, asOf, close));
    ProductPositive(log, VolumeIn(symbol, bar, asOf));
  }

  /** Without dividends and spinoffs the multiplier is the reciprocal of the factor. */
  lemma StructuralReciprocal(log: Log, symbol: string, bar: int, asOf: int, close: Option<real>)
    requires forall a :: a in log && Applies(a, symbol, bar, asOf) ==> !a.kind.CashDividend? && !a.kind.Spinoff?
    ensures Times(Factor(log, symbol, bar, asOf, close), Multiplier(log, symbol, bar, asOf)) == 1.0
  {
    hide Times;
    ValueIdentity(log, symbol, bar, asOf, close);
    AllOnes(log, PayoutIn(symbol, bar, asOf, close));
  }

  lemma {:induction false} AllOnes(log: Log, f: Constructed -> real)
    requires forall a :: a in log ==> f(a) == 1.0
    ensures ProductOf(log, f) == 1.0
    decreases log
  {
    if log != [] {
      assert log[0] in log;
      AllOnes(log[1..], f);
      TimesOne(1.0);
    }
  }

  // ----- rounding

  /** Python's round() to an integer: nearest, ties to even. */
  function Round(x: real): int {
    var low := x.Floor;
    var rest := x - low as real;
    if rest < 0.5 then low else if rest > 0.5 then low + 1 else if low % 2 == 0 then low else low + 1
  }

  lemma RoundIsNearest(x: real)
    ensures -0.5 <= Round(x) as real - x <= 0.5
    ensures (Round(x) as real - x == 0.5 || Round(x) as real - x == -0.5) ==> Round(x) % 2 == 0
  {
    var low := x.Floor;
    assert low as real <= x < low as real + 1.0;
    assert (low + 1) as real == low as real + 1.0;
  }

  function AdjustedVolume(log: Log, symbol: string, bar: int, asOf: int, volume: int): int {
    Round(Times(volume as real, Multiplier(log, symbol, bar, asOf)))
  }

  ghost predicate Whole(x: real) { x == x.Floor as real }

  /** Adjusting a volume to b and from there to c, rounding twice, is adjusting it to c. */
  predicate VolumeComposes(log: Log, symbol: string, bar: int, b: int, c: int, volume: int) {
    AdjustedVolume(log, symbol, bar, c, volume)
    == AdjustedVolume(log, symbol, b, c, AdjustedVolume(log, symbol, bar, b, volume))
  }

  lemma RoundWhole(x: real)
    requires Whole(x)
    ensures Round(x) as real == x
  {}

  /** It does if the volume at b is whole before rounding. */
  lemma WholeVolumeComposes(log: Log, symbol: string, bar: int, b: int, c: int, volume: int)
    requires bar <= b <= c && Whole(Times(volume as real, Multiplier(log, symbol, bar, b)))
    ensures VolumeComposes(log, symbol, bar, b, c, volume)
  {
    hide Times, Multiplier, Round;
    var v, m, n := volume as real, Multiplier(log, symbol, bar, b), Multiplier(log, symbol, b, c);
    AdjustmentComposes(log, symbol, bar, b, c, None, 0.0);
    RoundWhole(Times(v, m));
    TimesAssociates(v, m, n);
  }

  lemma RoundsApart(x: real, y: real)
    requires x - y >= 2.0 || y - x >= 2.0
    ensures Round(x) != Round(y)
  {
    RoundIsNearest(x);
    RoundIsNearest(y);
  }

  /** A number that is not whole and what it rounds to are driven apart by a large enough factor. */
  lemma DriveApart(x: real, n: real) returns (ratio: real)
    requires !Whole(x) && n > 0.0
    ensures ratio > 0.0
    ensures Times(x, Times(n, ratio)) - Times(Round(x) as real, Times(n, ratio)) >= 2.0
            || Times(Round(x) as real, Times(n, ratio)) - Times(x, Times(n, ratio)) >= 2.0
  {
    var d := x - Round(x) as real;
    assert d != 0.0;
    var gap := if d > 0.0 then d else -d;
    ratio := 2.0 / (gap * n);
    Stretch(gap, n);
    var k := n * ratio;
    assert x * k - Round(x) as real * k == d * k;
    assert (-d) * k == -(d * k);
  }

  lemma Stretch(gap: real, n: real)
    requires gap > 0.0 && n > 0.0
    ensures gap * n > 0.0 && 2.0 / (gap * n) > 0.0 && gap * (n * (2.0 / (gap * n))) == 2.0
  {
    var p := gap * n;
    assert p * (2.0 / p) == 2.0;
    assert gap * (n * (2.0 / p)) == p * (2.0 / p);
  }

  /** What a split after b adds. */
  lemma SplitAdds(log: Log, a: Constructed, symbol: string, bar: int, b: int, c: int)
    requires bar <= b < c && a.symbol == symbol && a.effective == c && a.kind.Split?
    ensures Multiplier(log + [a], symbol, bar, b) == Multiplier(log, symbol, bar, b)
    ensures Multiplier(log + [a], symbol, b, c) == Times(Multiplier(log, symbol, b, c), a.kind.ratio)
  {
    hide Times;
    OutsideWindowIsIgnored(log, a, symbol, bar, b, None);
    var f := VolumeIn(symbol, b, c);
    ProductConcat(log, [a], f);
    assert [a][1..] == [];
    assert ProductOf([a][1..], f) == 1.0;
    TimesOne(a.kind.ratio);
  }

  /** One later split undoes it otherwise. */
  lemma FractionBreaks(log: Log, symbol: string, bar: int, b: int, c: int, volume: int) returns (a: Constructed)
    requires bar <= b < c && !Whole(Times(volume as real, Multiplier(log, symbol, bar, b)))
    ensures a.symbol == symbol && a.effective == c && a.kind.Split? && !VolumeComposes(log + [a], symbol, bar, b, c, volume)
  {
    hide Times, Multiplier, Round;
    var v, m, n := volume as real, Multiplier(log, symbol, bar, b), Multiplier(log, symbol, b, c);
    var x := Times(v, m);
    MultiplierPositive(log, symbol, b, c);
    var ratio := DriveApart(x, n);
    a := Action(symbol, c, Split(ratio));
    SplitAdds(log, a, symbol, bar, b, c);
    AdjustmentComposes(log + [a], symbol, bar, b, c, None, 0.0);
    TimesAssociates(v, m, Times(n, ratio));
    RoundsApart(Times(x, Times(n, ratio)), Times(Round(x) as real, Times(n, ratio)));
  }

  lemma MultiplierPositive(log: Log, symbol: string, bar: int, asOf: int)
    ensures Multiplier(log, symbol, bar, asOf) > 0.0
  {
    ValueIdentity(log, symbol, bar, asOf, None);
  }

  /** Rounded volumes compose at b whatever split comes after exactly if the volume there is whole before rounding. */
  lemma RoundedVolumeComposesIff(log: Log, symbol: string, bar: int, b: int, c: int, volume: int)
    requires bar <= b < c
    ensures Whole(Times(volume as real, Multiplier(log, symbol, bar, b))) <==>
            forall a: Constructed | a.symbol == symbol && a.effective == c && a.kind.Split? ::
              VolumeComposes(log + [a], symbol, bar, b, c, volume)
  {
    hide Times, Multiplier, VolumeComposes, Whole;
    if Whole(Times(volume as real, Multiplier(log, symbol, bar, b))) {
      forall a: Constructed | a.symbol == symbol && a.effective == c && a.kind.Split?
        ensures VolumeComposes(log + [a], symbol, bar, b, c, volume)
      {
        SplitAdds(log, a, symbol, bar, b, c);
        WholeVolumeComposes(log + [a], symbol, bar, b, c, volume);
      }
    } else {
      var a := FractionBreaks(log, symbol, bar, b, c, volume);
    }
  }

  // ----- the code

  predicate NoLater(x: Action, y: Action) { x.effective <= y.effective }

  function ActionsFor(log: Log, symbol: string): Log {
    Sort(Filter(log, (a: Constructed) => a.symbol == symbol), (x: Constructed, y: Constructed) => NoLater(x, y))
  }

  function Applicable(actions: Log, bar: int, asOf: int): Log {
    Filter(actions, (a: Constructed) => bar < a.effective <= asOf)
  }

  lemma ActionsForMembers(log: Log, symbol: string, a: Constructed)
    requires a in ActionsFor(log, symbol)
    ensures a in log && a.symbol == symbol
  {
    var mine := Filter(log, (a: Constructed) => a.symbol == symbol);
    FilterMembers(log, (a: Constructed) => a.symbol == symbol);
    SortPermutes(mine, (x: Constructed, y: Constructed) => NoLater(x, y));
    assert a in multiset(ActionsFor(log, symbol));
    assert a in multiset(mine);
  }

  /** Filtering by symbol, sorting by date and keeping the window leaves the product over the log. */
  lemma WindowProduct(log: Log, symbol: string, bar: int, asOf: int, f: Constructed -> real, g: Constructed -> real)
    requires forall a :: a in log ==> g(a) == if Applies(a, symbol, bar, asOf) then f(a) else 1.0
    ensures ProductOf(Applicable(ActionsFor(log, symbol), bar, asOf), f) == ProductOf(log, g)
  {
    var mine, sorted := Filter(log, (a: Constructed) => a.symbol == symbol), ActionsFor(log, symbol);
    ProductFilter(log, (a: Constructed) => a.symbol == symbol, g);
    SortPermutes(mine, (x: Constructed, y: Constructed) => NoLater(x, y));
    ProductPermutes(sorted, mine, g);
    forall a | a in sorted
      ensures g(a) == if bar < a.effective <= asOf then f(a) else 1.0
    {
      ActionsForMembers(log, symbol, a);
    }
    ProductFilter(sorted, (a: Constructed) => bar < a.effective <= asOf, g);
    FilterMembers(sorted, (a: Constructed) => bar < a.effective <= asOf);
    ProductSame(Applicable(sorted, bar, asOf), f, g);
  }

  lemma {:induction false} FilterMembers(log: Log, p: Constructed -> bool)
    ensures forall a :: a in Filter(log, p) ==> a in log && p(a)
    decreases log
  {
    if log != [] {
      FilterMembers(log[1..], p);
    }
  }

  lemma Divide(x: real, r: real)
    requires r > 0.0
    ensures x / r == Times(x, 1.0 / r)
  {
    Inverse(r);
    assert x / r * r == x;
    assert (x * (1.0 / r)) * r == x * (1.0 / r * r);
    assert (x / r - x * (1.0 / r)) * r == 0.0;
  }

  /** One round of the loops: the running factor takes over the next action's. */
  lemma FactorStep(chosen: Log, i: nat, f: Constructed -> real, before: real, after: real)
    requires i < |chosen| && after == Times(before, f(chosen[i]))
    ensures Times(after, ProductOf(chosen[i + 1..], f)) == Times(before, ProductOf(chosen[i..], f))
  {
    hide Times;
    assert chosen[i..][1..] == chosen[i + 1..];
    TimesAssociates(before, f(chosen[i]), ProductOf(chosen[i + 1..], f));
  }

  class CorporateActionLog {
    var actions: Log

    constructor (actions: Log)
      ensures this.actions == actions
    {
      this.actions := actions;
    }

    method AppendAction(action: Constructed)
      modifies this
      ensures actions == old(actions) + [action]
    {
      actions := actions + [action];
    }

    /** adjust_price: the sorted, windowed loop computes the product over the log. */
    method AdjustPrice(symbol: string, bar: int, price: real, asOf: int, close: Option<real>) returns (r: real)
      ensures r == Adjusted(actions, symbol, bar, asOf, close, price)
    {
      hide Times;
      var f := (a: Constructed) => PriceFactor(a, close);
      var chosen := Applicable(ActionsFor(actions, symbol), bar, asOf);
      var factor := 1.0;
      TimesOne(ProductOf(chosen, f));
      WindowProduct(actions, symbol, bar, asOf, f, PriceIn(symbol, bar, asOf, close));
      assert chosen[0..] == chosen;
      for i := 0 to |chosen|
        invariant Times(factor, ProductOf(chosen[i..], f)) == ProductOf(chosen, f)
      {
        var a := chosen[i];
        ghost var before := factor;
        TimesOne(factor);
        match a.kind {
          case Split(ratio) =>
            Divide(factor, ratio);
            factor := factor / ratio;
          case CashDividend(cash) =>
            if close.Some? && close.value > 0.0 {
              var dividend := (close.value - cash) / close.value;
              if dividend > 0.0 {
                factor := Times(factor, dividend);
              }
            }
          case Spinoff(ratio) =>
            factor := Times(factor, ratio);
          case StockMerger(ratio, _) =>
            Divide(factor, ratio);
            factor := factor / ratio;
          case _ =>
        }
        FactorStep(chosen, i, f, before, factor);
      }
      TimesOne(factor);
      r := Times(price, factor);
    }

    /** adjust_volume: rounded once, at the end. */
    method AdjustVolume(symbol: string, bar: int, volume: int, asOf: int) returns (r: int)
      ensures r == AdjustedVolume(actions, symbol, bar, asOf, volume)
    {
      hide Times;
      var chosen := Applicable(ActionsFor(actions, symbol), bar, asOf);
      var f := (a: Constructed) => VolumeFactor(a);
      var multiplier := 1.0;
      TimesOne(ProductOf(chosen, f));
      WindowProduct(actions, symbol, bar, asOf, f, VolumeIn(symbol, bar, asOf));
      assert chosen[0..] == chosen;
      for i := 0 to |chosen|
        invariant Times(multiplier, ProductOf(chosen[i..], f)) == ProductOf(chosen, f)
      {
        var a := chosen[i];
        ghost var before := multiplier;
        TimesOne(multiplier);
        if a.kind.Split? || a.kind.StockMerger? {
          multiplier := Times(multiplier, a.kind.ratio);
        }
        FactorStep(chosen, i, f, before, multiplier);
      }
      TimesOne(multiplier);
      r := Round(Times(volume as real, multiplier));
    }
  }
}
