/**
 * The iOS client's market-data service (the BinanceAPIService class of
 * BinanceAPIService.swift) as a sequential state machine: the manager
 * table, the reconnect counters and the record each depth event publishes.
 * Delegate callbacks become method calls; the scheduled reconnect becomes
 * the delay it would be scheduled after.
 */
module SwiftApiService {
  import opened Wrappers
  import opened Models
  import opened Levels
  import opened MarketKeys
  import opened SwiftOrderBook

  // --------------------------------------------------------------- reconnect

  const MaxReconnectAttempts: int := 5

  /** The raw value of `URLSessionWebSocketTask.CloseCode.goingAway`. */
  const GoingAway: int := 1001

  /** 2 to the power `n`, as the `pow(2.0, Double(n))` of the backoff. */
  function Pow2(n: nat): (r: real)
    ensures r >= 1.0
  {
    if n == 0 then 1.0 else 2.0 * Pow2(n - 1)
  }

  /** Doubling is monotone. */
  lemma {:induction false} Pow2Monotone(a: nat, b: nat)
    requires a <= b
    ensures Pow2(a) <= Pow2(b)
    decreases b
  {
    if a < b {
      Pow2Monotone(a, b - 1);
    }
  }

  /** `min(pow(2.0, Double(attempts)), 30.0)`, in seconds. */
  function BackoffDelay(attempts: nat): (r: real)
    ensures r <= 30.0 && r <= Pow2(attempts)
    ensures r == Pow2(attempts) || r == 30.0
  {
    if Pow2(attempts) < 30.0 then Pow2(attempts) else 30.0
  }

  /**
   * Below the attempt cap the 30-second ceiling never applies: the delays
   * are 1, 2, 4, 8 and 16 seconds.
   */
  lemma {:induction false} BackoffBelowCap(attempts: nat)
    requires attempts < MaxReconnectAttempts
    ensures BackoffDelay(attempts) == Pow2(attempts) <= 16.0
  {
    Pow2Monotone(attempts, 4);
    assert Pow2(4) == 16.0 by {
      assert Pow2(1) == 2.0;
      assert Pow2(2) == 4.0;
      assert Pow2(3) == 8.0;
    }
  }

  /** `reconnectAttempts[key] ?? 0`. */
  function AttemptsOf(counters: map<string, int>, key: string): int {
    if key in counters then counters[key] else 0
  }

  /** Which of the service's two streams a delegate callback is about. */
  datatype Stream = SpotStream | FuturesStream | StaleStream

  // ------------------------------------------------------------- aggregation

  /**
   * The ratios of the bands the manager can measure, in band order. A
   * manager measures all bands when it has a mid-price and none otherwise.
   */
  function PresentRatios(m: OrderBookManager, bands: seq<Band>): (r: seq<PriceRangeRatio>)
    reads m
    ensures m.GetCurrentPrice().None? ==> r == []
    ensures m.GetCurrentPrice().Some? ==>
              |r| == |bands| &&
              forall i :: 0 <= i < |bands| ==>
                Some(r[i]) == m.CalculateDepthRatioRange(bands[i].lowerPercent, bands[i].upperPercent)
    decreases |bands|
  {
    if bands == [] then []
    else
      var rest := PresentRatios(m, bands[1..]);
      match m.CalculateDepthRatioRange(bands[0].lowerPercent, bands[0].upperPercent)
      case None => rest
      case Some(ratio) => [ratio] + rest
  }

  /**
   * The record `publishMarketData(for:)` sends for a manager: its top 100
   * levels per side, the mid-price (0 when absent), a zero spread, the
   * largest listed quantity (1 when nothing is listed), the ratio of every
   * analysis band when there is a mid-price and none otherwise, and no big
   * orders.
   */
  function PublishedRecord(m: OrderBookManager): (r: MarketDepthData)
    reads m
    ensures r.symbol == m.symbol && r.isFutures == m.isFutures
    ensures (r.bids, r.asks) == m.GetFilteredOrders(PublishLimit)
    ensures r.currentPrice == m.GetCurrentPrice().GetOr(0.0)
    ensures r.spread == 0.0 && r.bigOrders == []
    ensures r.maxQuantity == MaxQuantity(r.bids + r.asks)
    ensures m.GetCurrentPrice().None? ==> r.buySellRatio == []
    ensures m.GetCurrentPrice().Some? ==>
              |r.buySellRatio| == |AnalysisRanges| &&
              forall i :: 0 <= i < |AnalysisRanges| ==> r.buySellRatio[i].range == AnalysisRanges[i]
  {
    var filtered := m.GetFilteredOrders(PublishLimit);
    MarketDepthData(m.symbol, m.isFutures, filtered.0, filtered.1,
                    m.GetCurrentPrice().GetOr(0.0), 0.0,
                    MaxQuantity(filtered.0 + filtered.1), PresentRatios(m, AnalysisRanges), [])
  }

  // ----------------------------------------------------------------- service

  class BinanceAPIService {
    var managers: map<string, OrderBookManager>
    var reconnectAttempts: map<string, int>
    var currentSpotSymbol: Option<string>
    var currentFuturesSymbol: Option<string>

    /**
     * Every reconnect counter stays between 0 and the attempt cap, and no
     * manager object is filed under two keys.
     */
    ghost predicate Valid()
      reads this
    {
      (forall k :: k in reconnectAttempts ==> 0 <= reconnectAttempts[k] <= MaxReconnectAttempts) &&
      (forall k1, k2 :: k1 in managers && k2 in managers && k1 != k2 ==> managers[k1] != managers[k2])
    }

    /** The service starts with BTCUSDT spot and futures managers at threshold 50. */
    constructor()
      ensures Valid()
      ensures managers.Keys == {"BTCUSDT_SPOT", "BTCUSDT_FUTURES"}
      ensures forall k :: k in managers ==>
                fresh(managers[k]) && managers[k].symbol == "BTCUSDT" &&
                managers[k].minQuantity == 50.0 && managers[k].bids == map[] && managers[k].asks == map[] &&
                managers[k].lastUpdateId == 0
      ensures managers["BTCUSDT_SPOT"].isFutures == false && managers["BTCUSDT_FUTURES"].isFutures == true
      ensures reconnectAttempts == map[]
      ensures currentSpotSymbol == None && currentFuturesSymbol == None
    {
      var spot := new OrderBookManager("BTCUSDT", false, 50.0);
      var futures := new OrderBookManager("BTCUSDT", true, 50.0);
      managers := map["BTCUSDT_SPOT" := spot, "BTCUSDT_FUTURES" := futures];
      reconnectAttempts := map[];
      currentSpotSymbol := None;
      currentFuturesSymbol := None;
    }

    /**
     * Shows `newSymbol` in both markets: the table is emptied and then holds
     * exactly two fresh managers, filed under the symbol's upper-cased spot
     * and futures keys, with the given threshold and an empty book.
     */
    method SwitchSymbol(newSymbol: string, threshold: real)
      requires Valid()
      modifies this`managers, this`currentSpotSymbol, this`currentFuturesSymbol
      ensures Valid()
      ensures managers.Keys == {ManagerKey(newSymbol, false), ManagerKey(newSymbol, true)}
      ensures forall k :: k in managers ==>
                fresh(managers[k]) && managers[k].symbol == newSymbol &&
                managers[k].minQuantity == threshold && managers[k].bids == map[] && managers[k].asks == map[] &&
                managers[k].lastUpdateId == 0
      ensures !managers[ManagerKey(newSymbol, false)].isFutures && managers[ManagerKey(newSymbol, true)].isFutures
      ensures currentSpotSymbol == Some(newSymbol) && currentFuturesSymbol == Some(newSymbol)
    {
      SpotAndFuturesKeysDiffer(newSymbol);
      var spot := new OrderBookManager(newSymbol, false, threshold);
      var futures := new OrderBookManager(newSymbol, true, threshold);
      managers := map[];
      managers := managers[ManagerKey(newSymbol, false) := spot];
      managers := managers[ManagerKey(newSymbol, true) := futures];
      currentSpotSymbol := Some(newSymbol);
      currentFuturesSymbol := Some(newSymbol);
    }

    /**
     * A reconnect request. Past the attempt cap nothing is scheduled and the
     * counter stays; otherwise the counter goes up by one and the reconnect
     * is scheduled after the backoff delay of the attempts made so far.
     */
    method ReconnectWebSocketStream(isFutures: bool) returns (delay: Option<real>)
      requires Valid()
      modifies this`reconnectAttempts
      ensures Valid()
      ensures var attempts := AttemptsOf(old(reconnectAttempts), AttemptsKey(isFutures));
              if attempts >= MaxReconnectAttempts then
                delay == None && reconnectAttempts == old(reconnectAttempts)
              else
                reconnectAttempts == old(reconnectAttempts)[AttemptsKey(isFutures) := attempts + 1] &&
                delay == Some(Pow2(attempts))
      ensures delay.Some? ==> 1.0 <= delay.value <= 16.0
    {
      var key := AttemptsKey(isFutures);
      var attempts := AttemptsOf(reconnectAttempts, key);
      if attempts >= MaxReconnectAttempts {
        return None;
      }
      reconnectAttempts := reconnectAttempts[key := attempts + 1];
      BackoffBelowCap(attempts);
      delay := Some(BackoffDelay(attempts));
    }

    /** A stream that opens resets its market's reconnect counter; a stale one changes nothing. */
    method DidOpen(stream: Stream)
      requires Valid()
      modifies this`reconnectAttempts
      ensures Valid()
      ensures stream == SpotStream ==> reconnectAttempts == old(reconnectAttempts)[AttemptsKey(false) := 0]
      ensures stream == FuturesStream ==> reconnectAttempts == old(reconnectAttempts)[AttemptsKey(true) := 0]
      ensures stream == StaleStream ==> reconnectAttempts == old(reconnectAttempts)
    {
      match stream
      case SpotStream => reconnectAttempts := reconnectAttempts[AttemptsKey(false) := 0];
      case FuturesStream => reconnectAttempts := reconnectAttempts[AttemptsKey(true) := 0];
      case StaleStream =>
    }

    /**
     * A stream that closes is reconnected, unless it closed as going away
     * (the service's own disconnect) or is a stale stream.
     */
    method DidClose(stream: Stream, closeCode: int) returns (delay: Option<real>)
      requires Valid()
      modifies this`reconnectAttempts
      ensures Valid()
      ensures stream == StaleStream || closeCode == GoingAway ==>
                delay == None && reconnectAttempts == old(reconnectAttempts)
      ensures stream != StaleStream && closeCode != GoingAway ==>
                var key := AttemptsKey(stream == FuturesStream);
                var attempts := AttemptsOf(old(reconnectAttempts), key);
                if attempts >= MaxReconnectAttempts then
                  delay == None && reconnectAttempts == old(reconnectAttempts)
                else
                  reconnectAttempts == old(reconnectAttempts)[key := attempts + 1] &&
                  delay == Some(Pow2(attempts))
    {
      delay := None;
      if stream != StaleStream && closeCode != GoingAway {
        delay := ReconnectWebSocketStream(stream == FuturesStream);
      }
    }

    /**
     * A depth event from a market's stream: applied to the manager filed
     * under the event's upper-cased symbol and that market, whose record is
     * then sent; with no such manager nothing changes and nothing is sent.
     */
    method ProcessWebSocketMessage(event: DepthUpdateEvent, isFutures: bool) returns (sent: Option<MarketDepthData>)
      requires Valid()
      modifies managers.Values
      ensures Valid()
      ensures var key := ManagerKey(event.symbol, isFutures);
              key !in managers ==> sent == None && unchanged(managers.Values)
      ensures var key := ManagerKey(event.symbol, isFutures);
              key in managers ==>
                var m := managers[key];
                m.bids == Updated(old(m.bids), event.bids) && m.asks == Updated(old(m.asks), event.asks) &&
                m.lastUpdateId == event.finalUpdateId &&
                sent == Some(PublishedRecord(m)) &&
                forall k :: k in managers && k != key ==> unchanged(managers[k])
    {
      var key := ManagerKey(event.symbol, isFutures);
      sent := None;
      if key in managers {
        var m := managers[key];
        m.ApplyUpdate(event.bids, event.asks, event.finalUpdateId);
        sent := Some(PublishedRecord(m));
      }
    }
  }
}
