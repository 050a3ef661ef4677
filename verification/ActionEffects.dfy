/**
 What one more corporate action does to an adjusted price and volume
 (engine/core/corp_actions.py), by its kind, ratio and cash.
 */
module ActionEffects {
  import opened Wrappers
  import opened Products
  import opened CorpActions

  /** The adjusted price goes from p to q when the action is logged. */
  ghost predicate MovesPrice(k: Kind, close: Option<real>, p: real, q: real) {
    match k
    case Split(ratio) => Times(q, ratio) == p
    case StockMerger(ratio, _) => Times(q, ratio) == p
    case Spinoff(ratio) => q == Times(p, ratio)
    case CashDividend(cash) =>
      if close.Some? && close.value > 0.0 && cash < close.value then Times(q, close.value) == Times(p, close.value - cash) else q == p
    case CashMerger(_) => q == p
    case SymbolChange(_) => q == p
  }

  /** The volume multiplier goes from m to n. */
  ghost predicate MovesVolume(k: Kind, m: real, n: real) {
    match k
    case Split(ratio) => n == Times(m, ratio)
    case StockMerger(ratio, _) => n == Times(m, ratio)
    case _ => n == m
  }

  /** Without actions nothing is adjusted. */
  lemma NoActionsNoChange(symbol: string, bar: int, asOf: int, close: Option<real>, price: real, volume: int)
    ensures Adjusted([], symbol, bar, asOf, close, price) == price && AdjustedVolume([], symbol, bar, asOf, volume) == volume
  {
    TimesOne(price);
    TimesOne(volume as real);
    RoundWhole(volume as real);
  }

  lemma LoggedFactor(log: Log, a: Constructed, f: Constructed -> real)
    ensures ProductOf(log + [a], f) == Times(ProductOf(log, f), f(a))
  {
    hide Times;
    ProductConcat(log, [a], f);
    assert [a][1..] == [];
    assert ProductOf([a][1..], f) == 1.0;
    TimesOne(f(a));
  }

  lemma MovesByFactor(k: Kind, close: Option<real>, p: real, factor: real)
    requires Accepted(k) && factor == PriceFactor(Action("", 0, k), close)
    ensures MovesPrice(k, close, p, Times(p, factor))
  {
    TimesOne(p);
    match k
    case Split(ratio) => Undo(p, 1.0, ratio);
    case StockMerger(ratio, _) => Undo(p, 1.0, ratio);
    case CashDividend(cash) =>
      if close.Some? && close.value > 0.0 {
        var c := close.value;
        Undo(p, c - cash, c);
        SignOfQuotient(c - cash, c);
      }
    case _ =>
  }

  lemma Undo(p: real, a: real, c: real)
    requires c > 0.0
    ensures Times(Times(p, a / c), c) == Times(p, a)
  {
    assert a / c * c == a;
    TimesAssociates(p, a / c, c);
  }

  lemma SignOfQuotient(a: real, c: real)
    requires c > 0.0
    ensures a / c <= 0.0 <==> a <= 0.0
  {
    assert a / c * c == a;
  }

  /**
   Logging an action of the symbol that takes effect after the bar and by the as-of date divides the price by a
   split or merger ratio and multiplies the volume by it, multiplies the price by a spinoff's, and takes a dividend
   out of the closing price in proportion; any other action changes nothing.
   */
  lemma ActionAdjusts(log: Log, a: Constructed, symbol: string, bar: int, asOf: int, close: Option<real>, price: real)
    ensures var p, q := Adjusted(log, symbol, bar, asOf, close, price), Adjusted(log + [a], symbol, bar, asOf, close, price);
            var m, n := Multiplier(log, symbol, bar, asOf), Multiplier(log + [a], symbol, bar, asOf);
            if a.symbol == symbol && bar < a.effective && a.effective <= asOf
            then MovesPrice(a.kind, close, p, q) && MovesVolume(a.kind, m, n)
            else q == p && n == m
  {
    hide Times, ProductOf;
    LoggedFactor(log, a, PriceIn(symbol, bar, asOf, close));
    LoggedFactor(log, a, VolumeIn(symbol, bar, asOf));
    TimesAssociates(price, Factor(log, symbol, bar, asOf, close), PriceIn(symbol, bar, asOf, close)(a));
    TimesOne(Adjusted(log, symbol, bar, asOf, close, price));
    TimesOne(Multiplier(log, symbol, bar, asOf));
    if Applies(a, symbol, bar, asOf) {
      MovesByFactor(a.kind, close, Adjusted(log, symbol, bar, asOf, close, price), PriceFactor(a, close));
    }
  }
}
