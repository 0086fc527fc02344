/**
 * The per-symbol threshold memory of the iOS market view model
 * (MarketDataViewModel.swift): a table of remembered thresholds, the
 * threshold in use, and the selected symbol whose change resets it.
 */
module ViewModel {

  /** The threshold a symbol gets when the table has none for it. */
  const DefaultThreshold: real := 50.0

  /** `thresholds[symbol] ?? 50.0` */
  function ThresholdOf(thresholds: map<string, real>, symbol: string): (r: real)
    ensures symbol in thresholds ==> r == thresholds[symbol]
    ensures symbol !in thresholds ==> r == DefaultThreshold
  {
    if symbol in thresholds then thresholds[symbol] else DefaultThreshold
  }

  class MarketDataViewModel {
    var selectedSymbol: string
    var currentThreshold: real
    var thresholds: map<string, real>

    /** BTCUSDT is selected at 50; ETHUSDT and SOLUSDT are remembered at 200 and 500. */
    constructor()
      ensures selectedSymbol == "BTCUSDT" && currentThreshold == 50.0
      ensures thresholds == map["BTCUSDT" := 50.0, "ETHUSDT" := 200.0, "SOLUSDT" := 500.0]
      ensures currentThreshold == ThresholdOf(thresholds, selectedSymbol)
    {
      selectedSymbol := "BTCUSDT";
      currentThreshold := 50.0;
      thresholds := map["BTCUSDT" := 50.0, "ETHUSDT" := 200.0, "SOLUSDT" := 500.0];
    }

    /** The remembered threshold of a symbol, 50 for one never set. */
    function GetThreshold(symbol: string): (r: real)
      reads this
      ensures symbol in thresholds ==> r == thresholds[symbol]
      ensures symbol !in thresholds ==> r == DefaultThreshold
    {
      ThresholdOf(thresholds, symbol)
    }

    /**
     * Remembers `threshold` for `symbol` and puts it in use. No other
     * symbol's threshold changes and the selection stays.
     */
    method UpdateThreshold(symbol: string, threshold: real)
      modifies this`thresholds, this`currentThreshold
      ensures GetThreshold(symbol) == threshold && currentThreshold == threshold
      ensures forall s :: s != symbol ==> GetThreshold(s) == old(GetThreshold(s))
      ensures thresholds.Keys == old(thresholds.Keys) + {symbol}
    {
      thresholds := thresholds[symbol := threshold];
      currentThreshold := threshold;
    }

    /**
     * Selecting a symbol (the `didSet` of `selectedSymbol`) puts the
     * symbol's remembered threshold in use; the table is untouched.
     */
    method SelectSymbol(symbol: string)
      modifies this`selectedSymbol, this`currentThreshold
      ensures selectedSymbol == symbol
      ensures currentThreshold == GetThreshold(symbol)
      ensures symbol !in thresholds ==> currentThreshold == DefaultThreshold
    {
      selectedSymbol := symbol;
      currentThreshold := ThresholdOf(thresholds, selectedSymbol);
    }

    /**
     * Not an operation of the view model: the call sequence "update a
     * symbol's threshold, update another symbol's, select the first again",
     * kept for the property its contract states. The threshold set for the
     * symbol is the one in use after reselecting it, and the other symbol
     * keeps its own.
     */
    method UpdateThenReselect(symbol: string, threshold: real, other: string, otherThreshold: real)
      requires other != symbol
      modifies this`thresholds, this`currentThreshold, this`selectedSymbol
      ensures selectedSymbol == symbol && currentThreshold == threshold
      ensures GetThreshold(other) == otherThreshold
    {
      UpdateThreshold(symbol, threshold);
      UpdateThreshold(other, otherThreshold);
      SelectSymbol(symbol);
    }
  }
}
