/**
 * The Android client's market-data service (BinanceApiServiceImpl.kt) as a
 * sequential state machine: the manager table, the reconnect counters, the
 * adaptive-threshold cache and the publish throttle. WebSocket and REST
 * callbacks become method calls; the clock and the random jitter become
 * parameters.
 */
module KotlinApiService {
  import opened Wrappers
  import opened Models
  import opened Levels
  import opened MarketKeys
  import opened KotlinOrderBook

  // --------------------------------------------------------------- reconnect

  const MaxReconnectAttempts: int := 5

  /** The per-attempt base delays in milliseconds. */
  const ReconnectDelays: seq<int> := [1000, 2000, 5000, 10000, 30000]

  /** `reconnectDelays.getOrElse(attempts) { 30000L }` */
  function BaseDelay(attempts: int): (r: int)
    ensures 0 <= attempts < |ReconnectDelays| ==> r == ReconnectDelays[attempts]
    ensures !(0 <= attempts < |ReconnectDelays|) ==> r == 30000
  {
    if 0 <= attempts < |ReconnectDelays| then ReconnectDelays[attempts] else 30000
  }

  /** The backoff never shrinks from one attempt to the next and stays within 1 s to 30 s. */
  lemma BaseDelayGrows(a: int, b: int)
    requires 0 <= a <= b
    ensures 1000 <= BaseDelay(a) <= BaseDelay(b) <= 30000
  {
  }

  /** `getOrDefault(key, 0)` on the reconnect counters. */
  function AttemptsOf(counters: map<string, int>, key: string): int {
    if key in counters then counters[key] else 0
  }

  /** The minimum time between two publications of one market, in milliseconds. */
  function PublishInterval(isFutures: bool): int {
    if isFutures then 500 else 300
  }

  // ------------------------------------------------------ significant change

  function Abs(x: real): real {
    if x < 0.0 then -x else x
  }

  /**
   * `abs(next - base) / base > limit` in IEEE double arithmetic. A zero `base`
   * makes the quotient +Infinity (which exceeds every limit) when the values
   * differ and NaN (which exceeds none) when they are equal.
   */
  function Exceeds(next: real, base: real, limit: real): (r: bool)
    ensures base > 0.0 ==> (r <==> Abs(next - base) > limit * base)
    ensures base < 0.0 && limit >= 0.0 ==> !r
    ensures base == 0.0 ==> (r <==> next != base)
  {
    if base == 0.0 then next != base else Abs(next - base) / base > limit
  }

  /** A top-of-book level moved by more than 0.1% in price or 20% in quantity. */
  predicate LevelMoved(next: Entry, base: Entry) {
    Exceeds(next.price, base.price, 0.001) || Exceeds(next.quantity, base.quantity, 0.2)
  }

  /** A depth ratio moved by more than 0.05. */
  predicate RatioMoved(next: PriceRangeRatio, base: PriceRangeRatio) {
    Abs(next.ratio - base.ratio) > 0.05
  }

  /**
   * When a freshly computed view differs enough from the published one to be
   * worth publishing: the price moved by more than 0.1%; the top three bids
   * or asks changed in number; one of those levels moved; or, when both
   * carry ratios, one of the ratios they have in common moved.
   */
  ghost predicate SignificantChange(current: MarketDepthData, newBids: seq<Entry>, newAsks: seq<Entry>,
                                    newPrice: real, newRatios: seq<PriceRangeRatio>)
  {
    Exceeds(newPrice, current.currentPrice, 0.001)
    || |Take(newBids, 3)| != |Take(current.bids, 3)|
    || |Take(newAsks, 3)| != |Take(current.asks, 3)|
    || (exists i :: 0 <= i < |Take(newBids, 3)| && LevelMoved(newBids[i], current.bids[i]))
    || (exists i :: 0 <= i < |Take(newAsks, 3)| && LevelMoved(newAsks[i], current.asks[i]))
    || (|newRatios| > 0 && |current.buySellRatio| > 0 &&
        exists i :: 0 <= i < |newRatios| && i < |current.buySellRatio| && RatioMoved(newRatios[i], current.buySellRatio[i]))
  }

  /** `hasSignificantChange`: the checks in the order it makes them, with its early returns. */
  method HasSignificantChange(current: MarketDepthData, newBids: seq<Entry>, newAsks: seq<Entry>,
                              newPrice: real, newRatios: seq<PriceRangeRatio>) returns (r: bool)
    ensures r <==> SignificantChange(current, newBids, newAsks, newPrice, newRatios)
  {
    if Exceeds(newPrice, current.currentPrice, 0.001) {
      return true;
    }
    var topBids, topAsks := Take(newBids, 3), Take(newAsks, 3);
    var currentTopBids, currentTopAsks := Take(current.bids, 3), Take(current.asks, 3);
    if |topBids| != |currentTopBids| || |topAsks| != |currentTopAsks| {
      return true;
    }
    var i := 0;
    while i < |topBids|
      invariant 0 <= i <= |topBids|
      invariant forall j :: 0 <= j < i ==> !LevelMoved(newBids[j], current.bids[j])
    {
      if LevelMoved(topBids[i], currentTopBids[i]) {
        return true;
      }
      i := i + 1;
    }
    i := 0;
    while i < |topAsks|
      invariant 0 <= i <= |topAsks|
      invariant forall j :: 0 <= j < i ==> !LevelMoved(newAsks[j], current.asks[j])
    {
      if LevelMoved(topAsks[i], currentTopAsks[i]) {
        return true;
      }
      i := i + 1;
    }
    if |newRatios| > 0 && |current.buySellRatio| > 0 {
      var common := if |newRatios| < |current.buySellRatio| then |newRatios| else |current.buySellRatio|;
      i := 0;
      while i < common
        invariant 0 <= i <= common
        invariant forall j :: 0 <= j < i ==> !RatioMoved(newRatios[j], current.buySellRatio[j])
      {
        if RatioMoved(newRatios[i], current.buySellRatio[i]) {
          return true;
        }
        i := i + 1;
      }
    }
    return false;
  }

  // ------------------------------------------------------------- aggregation

  /**
   * The ratio of one band, the zero record standing in when the manager
   * cannot measure it.
   */
  function BandRatio(m: OrderBookManager, band: Band): (r: PriceRangeRatio)
    reads m
    ensures r.range == band
    ensures m.GetCurrentPrice().None? ==> r == ZeroRatio(band)
    ensures m.GetCurrentPrice().Some? ==> Some(r) == m.CalculateDepthRatioRange(band.lowerPercent, band.upperPercent)
  {
    m.CalculateDepthRatioRange(band.lowerPercent, band.upperPercent).GetOr(ZeroRatio(band))
  }

  /** The ratio of every band, in band order. */
  function BandRatios(m: OrderBookManager, bands: seq<Band>): (r: seq<PriceRangeRatio>)
    reads m
    ensures |r| == |bands|
    ensures forall i :: 0 <= i < |bands| ==> r[i] == BandRatio(m, bands[i])
    decreases |bands|
  {
    if bands == [] then [] else [BandRatio(m, bands[0])] + BandRatios(m, bands[1..])
  }

  /**
   * The record `publishMarketData` would publish for a manager: its top 100
   * levels per side, mid-price and spread (0 when absent), the largest
   * listed quantity (1 when nothing is listed), one ratio per analysis band
   * and the big orders.
   */
  function ComposeMarketData(m: OrderBookManager): (r: MarketDepthData)
    reads m
    ensures r.symbol == m.symbol && r.isFutures == m.isFutures
    ensures (r.bids, r.asks) == m.GetFilteredOrders(PublishLimit)
    ensures r.currentPrice == m.GetCurrentPrice().GetOr(0.0) && r.spread == m.GetSpread().GetOr(0.0)
    ensures r.maxQuantity == MaxQuantity(r.bids + r.asks)
    ensures |r.buySellRatio| == |AnalysisRanges|
    ensures forall i :: 0 <= i < |AnalysisRanges| ==> r.buySellRatio[i] == BandRatio(m, AnalysisRanges[i])
    ensures r.bigOrders == m.GetBigOrders()
  {
    var filtered := m.GetFilteredOrders(PublishLimit);
    var listed := filtered.0 + filtered.1;
    MarketDepthData(m.symbol, m.isFutures, filtered.0, filtered.1,
                    m.GetCurrentPrice().GetOr(0.0), m.GetSpread().GetOr(0.0),
                    MaxQuantity(listed), BandRatios(m, AnalysisRanges), m.GetBigOrders())
  }

  /**
   * What a market that shows `current` shows after an unthrottled
   * publication for `m`: the freshly composed record, unless the market
   * already shows `m`'s symbol, there is a mid-price, and the new record is
   * not significantly different from the shown one.
   */
  ghost function NextRecord(current: Option<MarketDepthData>, m: OrderBookManager): (r: Option<MarketDepthData>)
    reads m
  {
    var data := ComposeMarketData(m);
    var price := m.GetCurrentPrice();
    if current.Some? && price.Some? && current.value.symbol == m.symbol &&
       !SignificantChange(current.value, data.bids, data.asks, price.value, data.buySellRatio)
    then current
    else Some(data)
  }

  /**
   * A publication either keeps the shown record or shows the fresh one, and
   * it always shows the fresh one when the market showed nothing or another
   * symbol, or when `m` has no mid-price.
   */
  lemma NextRecordChoices(current: Option<MarketDepthData>, m: OrderBookManager)
    ensures NextRecord(current, m) == current || NextRecord(current, m) == Some(ComposeMarketData(m))
    ensures current.None? || m.GetCurrentPrice().None? || current.value.symbol != m.symbol ==>
              NextRecord(current, m) == Some(ComposeMarketData(m))
  {
  }

  /** The second half of `publishMarketData`: compose the record, then keep the shown one if nothing moved. */
  method ChooseRecord(current: Option<MarketDepthData>, m: OrderBookManager) returns (next: Option<MarketDepthData>)
    ensures next == NextRecord(current, m)
  {
    var data := ComposeMarketData(m);
    var price := m.GetCurrentPrice();
    next := Some(data);
    if current.Some? && price.Some? && current.value.symbol == m.symbol {
      var significant := HasSignificantChange(current.value, data.bids, data.asks, price.value, data.buySellRatio);
      if !significant {
        next := current;
      }
    }
  }

  // ----------------------------------------------------------------- service

  class BinanceApiServiceImpl {
    var managers: map<string, OrderBookManager>
    var reconnectAttempts: map<string, int>
    var adaptiveThresholds: map<string, real>
    var currentSpotSymbol: Option<string>
    var currentFuturesSymbol: Option<string>
    var spotMarketData: Option<MarketDepthData>
    var futuresMarketData: Option<MarketDepthData>
    var lastSpotPublishTime: int
    var lastFuturesPublishTime: int

    /**
     * Every reconnect counter stays between 0 and the attempt cap, and no
     * manager object is filed under two keys.
     */
    ghost predicate Valid()
      reads this
    {
      (forall k :: k in reconnectAttempts ==> 0 <= reconnectAttempts[k] <= MaxReconnectAttempts) &&
      (forall k1, k2 :: k1 in managers && k2 in managers && k1 != k2 ==> managers[k1] != managers[k2])
    }

    /** The service starts with BTCUSDT spot and futures managers at threshold 50. */
    constructor()
      ensures Valid()
      ensures managers.Keys == {"BTCUSDT_SPOT", "BTCUSDT_FUTURES"}
      ensures forall k :: k in managers ==>
                fresh(managers[k]) && managers[k].symbol == "BTCUSDT" &&
                managers[k].minQuantity == 50.0 && managers[k].bids == map[] && managers[k].asks == map[] &&
                managers[k].lastUpdateId == 0
      ensures managers["BTCUSDT_SPOT"].isFutures == false && managers["BTCUSDT_FUTURES"].isFutures == true
      ensures reconnectAttempts == map[] && adaptiveThresholds == map[]
      ensures currentSpotSymbol == None && currentFuturesSymbol == None
      ensures spotMarketData == None && futuresMarketData == None
      ensures lastSpotPublishTime == 0 && lastFuturesPublishTime == 0
    {
      var spot := new OrderBookManager("BTCUSDT", false, 50.0);
      var futures := new OrderBookManager("BTCUSDT", true, 50.0);
      managers := map["BTCUSDT_SPOT" := spot, "BTCUSDT_FUTURES" := futures];
      reconnectAttempts := map[];
      adaptiveThresholds := map[];
      currentSpotSymbol := None;
      currentFuturesSymbol := None;
      spotMarketData := None;
      futuresMarketData := None;
      lastSpotPublishTime := 0;
      lastFuturesPublishTime := 0;
    }

    /** A stream that opens resets its market's reconnect counter. */
    method OnConnectionOpened(isFutures: bool)
      requires Valid()
      modifies this`reconnectAttempts
      ensures Valid()
      ensures reconnectAttempts == old(reconnectAttempts)[AttemptsKey(isFutures) := 0]
    {
      reconnectAttempts := reconnectAttempts[AttemptsKey(isFutures) := 0];
    }

    /**
     * A stream failure. Past the attempt cap nothing is scheduled and the
     * counter stays; otherwise the counter goes up by one and the reconnect
     * is scheduled after the attempt's base delay plus `jitter` milliseconds.
     */
    method ReconnectWebSocketStream(isFutures: bool, jitter: int) returns (delay: Option<int>)
      requires Valid() && 0 <= jitter < 1000
      modifies this`reconnectAttempts
      ensures Valid()
      ensures var attempts := AttemptsOf(old(reconnectAttempts), AttemptsKey(isFutures));
              if attempts >= MaxReconnectAttempts then
                delay == None && reconnectAttempts == old(reconnectAttempts)
              else
                reconnectAttempts == old(reconnectAttempts)[AttemptsKey(isFutures) := attempts + 1] &&
                delay == Some(BaseDelay(attempts) + jitter)
      ensures delay.Some? ==> 1000 <= delay.value < 31000
    {
      var key := AttemptsKey(isFutures);
      var attempts := AttemptsOf(reconnectAttempts, key);
      if attempts >= MaxReconnectAttempts {
        return None;
      }
      reconnectAttempts := reconnectAttempts[key := attempts + 1];
      delay := Some(BaseDelay(attempts) + jitter);
    }

    /** The cached threshold of a symbol; an unknown symbol gets 50, which is cached. */
    method GetAdaptiveThreshold(symbol: string) returns (threshold: real)
      modifies this`adaptiveThresholds
      ensures symbol in old(adaptiveThresholds) ==>
                threshold == old(adaptiveThresholds)[symbol] && adaptiveThresholds == old(adaptiveThresholds)
      ensures symbol !in old(adaptiveThresholds) ==>
                threshold == 50.0 && adaptiveThresholds == old(adaptiveThresholds)[symbol := 50.0]
    {
      if symbol in adaptiveThresholds {
        return adaptiveThresholds[symbol];
      }
      threshold := 50.0;
      adaptiveThresholds := adaptiveThresholds[symbol := threshold];
    }

    /**
     * Shows `newSymbol` in both markets. The effective threshold is
     * `threshold`, or the symbol's adaptive threshold when `threshold` is the
     * default 50. Only the table entries of the symbol's two manager keys
     * change, and no manager but the two filed there is touched.
     */
    method SwitchSymbol(newSymbol: string, threshold: real)
      requires Valid()
      modifies this`managers, this`adaptiveThresholds, this`currentSpotSymbol, this`currentFuturesSymbol
      modifies this`spotMarketData, this`futuresMarketData
      modifies if ManagerKey(newSymbol, false) in managers then {managers[ManagerKey(newSymbol, false)]} else {}
      modifies if ManagerKey(newSymbol, true) in managers then {managers[ManagerKey(newSymbol, true)]} else {}
      ensures Valid()
      ensures ManagerKey(newSymbol, false) in managers && ManagerKey(newSymbol, true) in managers
      ensures managers == old(managers)[ManagerKey(newSymbol, false) := managers[ManagerKey(newSymbol, false)]]
                                       [ManagerKey(newSymbol, true) := managers[ManagerKey(newSymbol, true)]]
      ensures threshold == 50.0 && newSymbol !in old(adaptiveThresholds) ==>
                adaptiveThresholds == old(adaptiveThresholds)[newSymbol := 50.0]
      ensures threshold != 50.0 || newSymbol in old(adaptiveThresholds) ==> adaptiveThresholds == old(adaptiveThresholds)
      ensures var effective := if threshold == 50.0 && newSymbol in old(adaptiveThresholds)
                               then old(adaptiveThresholds)[newSymbol] else threshold;
              managers[ManagerKey(newSymbol, false)].minQuantity == effective &&
              managers[ManagerKey(newSymbol, true)].minQuantity == effective
      ensures Switched(newSymbol, false) && Switched(newSymbol, true)
    {
      var effective := EffectiveThreshold(newSymbol, threshold);
      SpotAndFuturesKeysDiffer(newSymbol);
      SwitchMarket(newSymbol, false, effective);
      SwitchMarket(newSymbol, true, effective);
    }

    /**
     * The outcome of a switch to `newSymbol` for one market. If the market
     * showed another symbol (or had no manager for this one), its record is
     * cleared and the key holds a fresh manager with an empty book and
     * update id 0; otherwise record and manager are the ones it had, book
     * included. Either way the market now shows `newSymbol`.
     */
    twostate predicate Switched(newSymbol: string, isFutures: bool)
      reads this, managers.Values
    {
      var key := ManagerKey(newSymbol, isFutures);
      key in managers &&
      CurrentSymbol(isFutures) == Some(newSymbol) &&
      var m := managers[key];
      if old(CurrentSymbol(isFutures)) != Some(newSymbol) || key !in old(managers) then
        fresh(m) && m.symbol == newSymbol && m.isFutures == isFutures &&
        m.bids == map[] && m.asks == map[] && m.lastUpdateId == 0 &&
        (old(CurrentSymbol(isFutures)) != Some(newSymbol) ==> MarketData(isFutures) == None) &&
        (old(CurrentSymbol(isFutures)) == Some(newSymbol) ==> MarketData(isFutures) == old(MarketData(isFutures)))
      else
        m == old(managers[key]) && m.bids == old(m.bids) && m.asks == old(m.asks) &&
        m.lastUpdateId == old(m.lastUpdateId) && MarketData(isFutures) == old(MarketData(isFutures))
    }

    /** The symbol a market shows. */
    function CurrentSymbol(isFutures: bool): Option<string>
      reads this
    {
      if isFutures then currentFuturesSymbol else currentSpotSymbol
    }

    /** The part of `switchSymbol` that concerns one market. */
    method SwitchMarket(newSymbol: string, isFutures: bool, threshold: real)
      requires Valid()
      modifies this`managers, this`currentSpotSymbol, this`currentFuturesSymbol
      modifies this`spotMarketData, this`futuresMarketData
      modifies if ManagerKey(newSymbol, isFutures) in managers then {managers[ManagerKey(newSymbol, isFutures)]} else {}
      ensures Valid()
      ensures Switched(newSymbol, isFutures)
      ensures managers == old(managers)[ManagerKey(newSymbol, isFutures) := managers[ManagerKey(newSymbol, isFutures)]]
      ensures managers[ManagerKey(newSymbol, isFutures)].minQuantity == threshold
      ensures CurrentSymbol(!isFutures) == old(CurrentSymbol(!isFutures))
      ensures MarketData(!isFutures) == old(MarketData(!isFutures))
    {
      var key := ManagerKey(newSymbol, isFutures);
      if CurrentSymbol(isFutures) != Some(newSymbol) {
        if isFutures {
          futuresMarketData := None;
          currentFuturesSymbol := Some(newSymbol);
        } else {
          spotMarketData := None;
          currentSpotSymbol := Some(newSymbol);
        }
        managers := managers - {key};
      }
      InstallManager(newSymbol, isFutures, threshold);
    }

    /** The threshold `switchSymbol` applies: the adaptive one in place of the default 50. */
    method EffectiveThreshold(symbol: string, threshold: real) returns (effective: real)
      modifies this`adaptiveThresholds
      ensures effective == if threshold == 50.0 && symbol in old(adaptiveThresholds)
                           then old(adaptiveThresholds)[symbol] else threshold
      ensures adaptiveThresholds ==
                if threshold == 50.0 && symbol !in old(adaptiveThresholds)
                then old(adaptiveThresholds)[symbol := 50.0] else old(adaptiveThresholds)
    {
      effective := threshold;
      if threshold == 50.0 {
        effective := GetAdaptiveThreshold(symbol);
      }
    }

    /**
     * `managers.computeIfAbsent(key) { OrderBookManager(...) }.minQuantity =
     * threshold` for the manager key of `symbol` in one market: only that
     * entry of the table and only that manager's threshold change.
     */
    method InstallManager(symbol: string, isFutures: bool, threshold: real)
      requires Valid()
      modifies this`managers
      modifies if ManagerKey(symbol, isFutures) in managers then {managers[ManagerKey(symbol, isFutures)]} else {}
      ensures Valid()
      ensures ManagerKey(symbol, isFutures) in managers
      ensures managers == old(managers)[ManagerKey(symbol, isFutures) := managers[ManagerKey(symbol, isFutures)]]
      ensures managers[ManagerKey(symbol, isFutures)].minQuantity == threshold
      ensures var m := managers[ManagerKey(symbol, isFutures)];
              if ManagerKey(symbol, isFutures) in old(managers) then
                m == old(managers)[ManagerKey(symbol, isFutures)] &&
                m.bids == old(m.bids) && m.asks == old(m.asks) && m.lastUpdateId == old(m.lastUpdateId)
              else
                fresh(m) && m.symbol == symbol && m.isFutures == isFutures &&
                m.bids == map[] && m.asks == map[] && m.lastUpdateId == 0
    {
      var key := ManagerKey(symbol, isFutures);
      if key !in managers {
        var m := new OrderBookManager(symbol, isFutures, threshold);
        managers := managers[key := m];
      }
      managers[key].minQuantity := threshold;
    }

    /** The time the market last published. */
    function LastPublish(isFutures: bool): int
      reads this
    {
      if isFutures then lastFuturesPublishTime else lastSpotPublishTime
    }

    /** The record the market currently shows. */
    function MarketData(isFutures: bool): Option<MarketDepthData>
      reads this
    {
      if isFutures then futuresMarketData else spotMarketData
    }

    /**
     * The publish decision for one manager at time `now`: inside its
     * market's throttle window nothing happens; otherwise the market's
     * publish time becomes `now` and its record becomes `NextRecord`. The
     * other market is never touched.
     */
    twostate predicate Published(m: OrderBookManager, now: int)
      reads this, m
    {
      LastPublish(!m.isFutures) == old(LastPublish(!m.isFutures)) &&
      MarketData(!m.isFutures) == old(MarketData(!m.isFutures)) &&
      MarketPublished(m.isFutures, m, now)
    }

    /** The effect of a publication for `m` on the market `isFutures`. */
    twostate predicate MarketPublished(isFutures: bool, m: OrderBookManager, now: int)
      reads this, m
    {
      if now - old(LastPublish(isFutures)) < PublishInterval(isFutures) then
        LastPublish(isFutures) == old(LastPublish(isFutures)) &&
        MarketData(isFutures) == old(MarketData(isFutures))
      else
        LastPublish(isFutures) == now &&
        MarketData(isFutures) == NextRecord(old(MarketData(isFutures)), m)
    }

    /** `publishMarketData(manager)` with the clock read passed in as `now`. */
    method PublishMarketData(m: OrderBookManager, now: int)
      modifies this`lastSpotPublishTime, this`lastFuturesPublishTime, this`spotMarketData, this`futuresMarketData
      ensures Published(m, now)
    {
      if m.isFutures {
        PublishFutures(m, now);
      } else {
        PublishSpot(m, now);
      }
    }

    /** `publishMarketData` for a spot manager. */
    method PublishSpot(m: OrderBookManager, now: int)
      modifies this`lastSpotPublishTime, this`spotMarketData
      ensures MarketPublished(false, m, now)
    {
      if now - lastSpotPublishTime < PublishInterval(false) {
        return;
      }
      lastSpotPublishTime := now;
      spotMarketData := ChooseRecord(spotMarketData, m);
    }

    /** `publishMarketData` for a futures manager. */
    method PublishFutures(m: OrderBookManager, now: int)
      modifies this`lastFuturesPublishTime, this`futuresMarketData
      ensures MarketPublished(true, m, now)
    {
      if now - lastFuturesPublishTime < PublishInterval(true) {
        return;
      }
      lastFuturesPublishTime := now;
      futuresMarketData := ChooseRecord(futuresMarketData, m);
    }

    /**
     * A depth event from a market's stream: applied to the manager filed
     * under the event's upper-cased symbol and that market, which is then
     * published; with no such manager nothing changes.
     */
    method ProcessWebSocketMessage(event: DepthUpdateEvent, isFutures: bool, now: int)
      requires Valid()
      modifies this`lastSpotPublishTime, this`lastFuturesPublishTime, this`spotMarketData, this`futuresMarketData
      modifies managers.Values
      ensures Valid()
      ensures var key := ManagerKey(event.symbol, isFutures);
              key !in managers ==>
                unchanged(this) && unchanged(managers.Values)
      ensures var key := ManagerKey(event.symbol, isFutures);
              key in managers ==>
                var m := managers[key];
                m.bids == Updated(old(m.bids), event.bids) && m.asks == Updated(old(m.asks), event.asks) &&
                m.lastUpdateId == event.finalUpdateId && m.minQuantity == old(m.minQuantity) &&
                Published(m, now) &&
                forall k :: k in managers && k != key ==> unchanged(managers[k])
    {
      var key := ManagerKey(event.symbol, isFutures);
      if key in managers {
        var m := managers[key];
        m.ApplyUpdate(event.bids, event.asks, event.finalUpdateId);
        PublishMarketData(m, now);
      }
    }
  }
}
